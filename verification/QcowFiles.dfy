/** An open qcow2 image: a flat virtual disk kept in clusters of a growing host file. */
module QcowFiles {
  import opened Arithmetic
  import opened HostBytes
  import opened PointerTables
  import opened Wrappers
  import opened VecCaches
  import opened CachedTables
  import opened Journals
  import opened QcowImage
  import opened QcowSteps
  import opened QcowDisk
  import opened QcowCommit
  import opened QcowCounting
  import opened QcowMapping
  import opened QcowRawFiles
  import opened RefCounts

  const L2_CACHE_CAPACITY: nat := 100
  const U64_MAX: nat := 0xffff_ffff_ffff_ffff

  /** How much of `[address..address + count)` lies on a disk of `size` bytes. */
  function LimitRangeFile(size: nat, address: nat, count: nat): (n: nat)
    ensures n <= count && (n > 0 ==> address + n <= size)
  {
    if address + count > U64_MAX || address > size then 0 else Min(count, size - address)
  }

  /** How much of it lies in the cluster of `address`. */
  function LimitRangeCluster(g: Geometry, address: nat, count: nat): (n: nat)
    requires 0 < g.clusterSize
    ensures n <= count && ClusterOffset(g, address) + n <= g.clusterSize
    ensures count > 0 ==> n > 0
  {
    Min(count, g.clusterSize - ClusterOffset(g, address))
  }

  /** What a write to a cluster that is neither reserved nor frozen may count on. */
  lemma ClusterWritable(g: Geometry, s: Image, k: Ledger, c: Commit, x: nat, off: nat, n: nat)
    requires Inv(g, s, k) && x in k.own && !k.own[x].Fixed? && x !in k.frozen.blocks
    requires c.frozen <= k.frozen.blocks
    requires (c.lo == g.l1Offset && c.count == g.l1Len) || (c.lo == g.refTableOffset && c.count == g.refTableLen)
    requires x <= off && off + n <= x + g.clusterSize
    ensures Clear(g.clusterSize, c, off, n)
  {
    assert !Reserved(g, x);
    forall a | a in c.frozen
      ensures off + n <= a || a + g.clusterSize <= off
    {
      AlignedApart(g.clusterSize, a, x);
    }
  }

  /** A cluster in this role holds no guest data. */
  predicate Internal(r: Role) {
    r.L2Table? || r.RefBlock? || r.Avail? || r.Held?
  }

  lemma SlotsApart(g: Geometry, s: Image, k: Ledger, x: nat)
    requires Inv(g, s, k) && x in k.own && !k.own[x].Fixed?
    ensures 0 < x && 0 < g.clusterSize
    ensures forall d :: d in k.frozen.slots && d != x ==> x + g.clusterSize <= d || d + g.clusterSize <= x
  {
    assert Reserved(g, 0);
    forall d | d in k.frozen.slots && d != x
      ensures x + g.clusterSize <= d || d + g.clusterSize <= x
    {
      AlignedApart(g.clusterSize, d, x);
    }
  }

  lemma SlotsBeside(g: Geometry, s: Image, k: Ledger, x: nat, off: nat, n: nat)
    requires Inv(g, s, k) && x in k.own && Internal(k.own[x]) && x <= off && off + n <= x + g.clusterSize
    ensures Beside(g.clusterSize, k.frozen.slots, off, n)
  {
    SlotsApart(g, s, k, x);
  }

  /** The commits protect the table areas and the clusters the tables on disk point to. */
  ghost predicate CommittedOk(g: Geometry, b: seq<byte>, frozen: Frozen, j: Journal, l1: VecCache, rt: VecCache) {
    && InFile(g, b)
    && frozen == Frozen(j.mapBook.commit.frozen + j.refBook.commit.frozen, j.slots)
    && j.mapBook.commit.lo == g.l1Offset && j.mapBook.commit.count == g.l1Len
    && j.refBook.commit.lo == g.refTableOffset && j.refBook.commit.count == g.refTableLen
    && j.mapBook.mask && !j.refBook.mask
    && (!l1.dirty ==> DiskL1(g, b) == l1.vec)
    && (!rt.dirty ==> DiskRefTable(g, b) == rt.vec)
  }

  lemma CommittedKeeps(g: Geometry, b: seq<byte>, frozen: Frozen, j: Journal, l1: VecCache, rt: VecCache,
                       b': seq<byte>, j': Journal, l1': VecCache, rt': VecCache)
    requires CommittedOk(g, b, frozen, j, l1, rt) && SameAreas(g, b, b') && (SamePages(j, j') || Continued(j, j'))
    requires l1' == l1 || l1'.dirty
    requires rt' == rt || rt'.dirty
    ensures CommittedOk(g, b', frozen, j', l1', rt')
  {
  }

  lemma CommittedThaw(g: Geometry, b: seq<byte>, frozen: Frozen, j: Journal, l1: VecCache, rt: VecCache, a: nat)
    requires CommittedOk(g, b, frozen, j, l1, rt)
    ensures CommittedOk(g, b, frozen.Without(a), Thawed(j, a), l1, rt)
  {
  }

  // What of the guest's data a write leaves on disk.

  /** The touch leaves byte `x` at guest address `v`. */
  predicate Puts(g: Geometry, t: Touch, v: nat, x: byte)
    requires 8 <= g.clusterSize
  {
    var (i, j) := MapIndex(g, VirtualCluster(g, v));
    t.Leaves(i, j, ClusterOffset(g, v), x)
  }

  /** All it leaves is part of `data`, which is written from guest address `lo` on. */
  ghost predicate PartOf(g: Geometry, t: Touch, lo: nat, data: seq<byte>)
    requires 8 <= g.clusterSize
  {
    forall v: nat, x: byte :: Puts(g, t, v, x) ==> lo <= v < lo + |data| && x == data[v - lo]
  }

  /** What the guest wrote since is part of `data`. */
  ghost predicate WroteOnly(g: Geometry, j: Journal, j': Journal, lo: nat, data: seq<byte>)
    requires 8 <= g.clusterSize
  {
    forall n :: n in j'.guest ==> n in j.guest || (|j.images| <= n && PartOf(g, j'.guest[n], lo, data))
  }

  function TouchOf(g: Geometry, address: nat, piece: seq<byte>): Touch
    requires 8 <= g.clusterSize
  {
    var (i, j) := MapIndex(g, VirtualCluster(g, address));
    Touch(i, j, ClusterOffset(g, address), piece)
  }

  lemma PieceIsPart(g: Geometry, address: nat, piece: seq<byte>)
    requires 8 <= g.clusterSize && ClusterOffset(g, address) + |piece| <= g.clusterSize
    ensures PartOf(g, TouchOf(g, address, piece), address, piece)
  {
    hide MapIndex, VirtualCluster, ClusterOffset;
    var t := TouchOf(g, address, piece);
    forall v: nat, x: byte | Puts(g, t, v, x)
      ensures address <= v < address + |piece| && x == piece[v - address]
    {
      IndexInjective(g, VirtualCluster(g, v), VirtualCluster(g, address));
      SameCluster(g, address, |piece|, v);
    }
  }

  lemma WroteUnder(g: Geometry, j: Journal, j': Journal, lo: nat, data: seq<byte>)
    requires 8 <= g.clusterSize && Continued(j, j')
    ensures SamePages(j, j') && GuestKept(j, j') && WroteOnly(g, j, j', lo, data)
  {
  }

  lemma WroteOne(g: Geometry, b: seq<byte>, j: Journal, j1: Journal, j2: Journal, t: Touch, lo: nat, data: seq<byte>)
    requires 8 <= g.clusterSize && Continued(j, j1) && SamePages(j1, j2) && PartOf(g, t, lo, data)
    requires JournalOk(g.clusterSize, b, j1) && j2.guest == j1.guest[|j1.images| := t]
    ensures SamePages(j, j2) && GuestKept(j, j2) && WroteOnly(g, j, j2, lo, data)
  {
    hide BookOk, SlotsFound, Unseen, PartOf;
  }

  lemma WroteMore(g: Geometry, j: Journal, j1: Journal, j2: Journal, lo: nat, data: seq<byte>, m: nat, n: nat)
    requires 8 <= g.clusterSize && m + n <= |data|
    requires WroteOnly(g, j, j1, lo, data[..m]) && WroteOnly(g, j1, j2, lo + m, data[m..m + n])
    requires SamePages(j, j1) && GuestKept(j, j1) && GuestKept(j1, j2)
    ensures WroteOnly(g, j, j2, lo, data[..m + n]) && GuestKept(j, j2)
  {
    hide Puts;
    forall p | p in j2.guest && p !in j.guest
      ensures |j.images| <= p && PartOf(g, j2.guest[p], lo, data[..m + n])
    {
      forall v: nat, x: byte | Puts(g, j2.guest[p], v, x)
        ensures lo <= v < lo + m + n && x == data[..m + n][v - lo]
      {
        assert p in j1.guest ==> PartOf(g, j1.guest[p], lo, data[..m]);
      }
    }
  }

  /** The role of the cluster that guest data goes to. */
  lemma DataHome(g: Geometry, s: Image, k: Ledger, c: nat)
    requires Inv(g, s, k) && MapEntry(g, s.bytes, s.l2, c) != 0
    ensures var a := MapEntry(g, s.bytes, s.l2, c);
            && a in k.own && !k.own[a].Fixed? && a !in k.frozen.blocks
            && (a in k.frozen.slots ==> k.frozen.slots[a] == MapIndex(g, c))
  {
  }

  /** Virtual cluster `c` reads as zero and nothing else changed. */
  ghost predicate Zeroed(g: Geometry, d: seq<byte>, d': seq<byte>, c: nat)
    requires 0 < g.clusterSize
  {
    && |d'| == |d|
    && (forall v :: 0 <= v < |d| ==> d'[v] == if VirtualCluster(g, v) == c then 0 else d[v])
  }

  lemma AlreadyZero(g: Geometry, s: Image, c: nat)
    requires 8 <= g.clusterSize && MapEntry(g, s.bytes, s.l2, c) == 0
    ensures Zeroed(g, Contents(g, s.bytes, s.l2), Contents(g, s.bytes, s.l2), c)
  {
    UnmappedZero(g, s, c);
  }

  class QcowFile {
    const g: Geometry
    const raw: QcowRawFile
    const refcounts: RefCount
    var l1Table: VecCache
    var l2Cache: Cache
    var currentOffset: nat
    var unrefClusters: seq<nat>
    var availClusters: seq<nat>
    ghost var ledger: Ledger

    ghost function Snap(): Image
      reads this, raw, refcounts
    {
      Image(raw.bytes, Level(Pointers, l1Table.vec, l2Cache), refcounts.Lv(), availClusters, unrefClusters)
    }

    /** The virtual disk. */
    ghost function Disk(): (d: seq<byte>)
      reads this, raw, refcounts
      ensures 8 <= g.clusterSize ==> |d| == g.size
    {
      if g.clusterSize < 8 then [] else Contents(g, raw.bytes, Level(Pointers, l1Table.vec, l2Cache))
    }

    lemma ValidBasics()
      requires Valid()
      ensures 512 <= g.clusterSize && |Disk()| == g.size && currentOffset <= g.size
    {
    }

    lemma SoundBasics()
      requires Sound()
      ensures GeometryOk(g) && CoverageOk(g) && raw.clusterSize == g.clusterSize
      ensures |Disk()| == g.size
    {
    }

    ghost predicate Wired()
      reads this, raw, refcounts
    {
      && GeometryOk(g) && CoverageOk(g)
      && raw.Valid() && raw.clusterSize == g.clusterSize
      && refcounts.clusterSize == g.clusterSize && refcounts.refcountBlockEntries == g.clusterSize / 2
      && refcounts.refcountTableOffset == g.refTableOffset
      && refcounts.maxValidClusterOffset + g.clusterSize == g.limit
      && |l2Cache| <= L2_CACHE_CAPACITY && |refcounts.refblockCache| <= REFBLOCK_CACHE_CAPACITY
    }

    ghost predicate Committed()
      reads this, raw, refcounts
    {
      CommittedOk(g, raw.bytes, ledger.frozen, raw.journal, l1Table, refcounts.refTable)
    }

    /** Sound, though counts of clusters just linked may still be pending. */
    ghost predicate Sound()
      reads this, raw, refcounts
    {
      Wired() && Committed() && Inv(g, Snap(), ledger)
    }

    ghost predicate Valid()
      reads this, raw, refcounts
    {
      Sound() && ledger.pending == {} && currentOffset <= g.size
    }

    /** Puts the parts together; nothing is cached and nothing is free yet. */
    constructor (g: Geometry, raw: QcowRawFile, refcounts: RefCount, l1: seq<nat>, ghost ledger: Ledger)
      ensures this.g == g && this.raw == raw && this.refcounts == refcounts
      ensures l1Table == VecCache(l1, false) && l2Cache == map[]
      ensures currentOffset == 0 && unrefClusters == [] && availClusters == []
      ensures this.ledger == ledger
    {
      this.g := g;
      this.raw := raw;
      this.refcounts := refcounts;
      this.l1Table := VecCache(l1, false);
      this.l2Cache := map[];
      this.currentOffset := 0;
      this.unrefClusters := [];
      this.availClusters := [];
      this.ledger := ledger;
    }

    /** A cluster in a free role can be written without touching what is committed. */
    lemma CanWrite(x: nat, off: nat, n: nat)
      requires Sound() && x in ledger.own && Internal(ledger.own[x]) && x !in ledger.frozen.blocks
      requires x <= off && off + n <= x + g.clusterSize
      ensures raw.Writable(off, n)
    {
      hide Inv, Clear, JournalOk, CoverageOk;
      ClusterWritable(g, Snap(), ledger, raw.journal.mapBook.commit, x, off, n);
      ClusterWritable(g, Snap(), ledger, raw.journal.refBook.commit, x, off, n);
      SlotsBeside(g, Snap(), ledger, x, off, n);
    }

    /** Guest data can be written to the cluster at `x`. */
    lemma CanTouch(x: nat, t: Touch)
      requires Sound() && x in ledger.own && !ledger.own[x].Fixed? && x !in ledger.frozen.blocks
      requires t.at + |t.data| <= g.clusterSize && (x in ledger.frozen.slots ==> ledger.frozen.slots[x] == (t.i, t.j))
      ensures raw.Unprotected(x + t.at, |t.data|) && Hosts(g.clusterSize, raw.journal.slots, x, t) && 0 < x
    {
      hide Inv, Clear, JournalOk, CoverageOk;
      ClusterWritable(g, Snap(), ledger, raw.journal.mapBook.commit, x, x + t.at, |t.data|);
      ClusterWritable(g, Snap(), ledger, raw.journal.refBook.commit, x, x + t.at, |t.data|);
      SlotsApart(g, Snap(), ledger, x);
    }

    /** Allocates a zeroed cluster: a free one, else a new one at the end of the file. */
    method GetNewCluster() returns (r: IoResult<nat>)
      requires Sound()
      modifies this`availClusters, this`ledger, raw
      ensures Sound() && Continued(old(raw.journal), raw.journal)
      ensures r.Err? ==> r.error == ENOSPC && ledger == old(ledger) && Snap() == old(Snap())
      ensures r.Err? <==> FreeClusters(g, old(Snap())) == 0
      ensures r.Ok? ==> Allocated(g, old(Snap()), old(ledger), Snap(), ledger, r.value)
    {
      hide Inv, CommittedOk, JournalOk, Allocated, CoverageOk, FreeClusters, EndAddress, SameAreas, Clear;
      ghost var s0, k0 := Snap(), ledger;
      ghost var j0 := raw.journal;
      // A free cluster is taken before the file grows.
      if availClusters != [] {
        AllocateAvail(g, s0, k0);
        var n := |availClusters| - 1;
        var x := availClusters[n];
        CanWrite(x, x, g.clusterSize);
        availClusters := availClusters[..n];
        raw.ZeroCluster(x);
        ledger := ledger.(own := ledger.own[x := Held]);
        AllocatedInv(g, s0, k0, Snap(), ledger, x);
        CommittedKeeps(g, s0.bytes, k0.frozen, j0, l1Table, refcounts.refTable,
                       raw.bytes, raw.journal, l1Table, refcounts.refTable);
        return Ok(x);
      }
      EndAddressOk(g, raw.bytes);
      EndAddressSame(raw.bytes);
      NoFreeClusters(g, s0);
      var added := raw.AddClusterEnd(refcounts.maxValidClusterOffset);
      if added.None? {
        return Err(ENOSPC);
      }
      AllocateEnd(g, s0, k0);
      var x := added.value;
      ledger := ledger.(own := ledger.own[x := Held]);
      AllocatedInv(g, s0, k0, Snap(), ledger, x);
      CommittedKeeps(g, s0.bytes, k0.frozen, j0, l1Table, refcounts.refTable,
                     raw.bytes, raw.journal, l1Table, refcounts.refTable);
      return Ok(x);
    }

    lemma EndAddressSame(b: seq<byte>)
      requires 0 < g.clusterSize
      ensures (|b| + g.clusterSize - 1) / g.clusterSize * g.clusterSize == EndAddress(g, b)
    {
      var cs, n := g.clusterSize, |b|;
      assert n == cs * (n / cs) + n % cs;
      if n % cs == 0 {
        DivModUnique(n + cs - 1, cs, n / cs, cs - 1);
      } else {
        DivModUnique(n + cs - 1, cs, n / cs + 1, n % cs - 1);
      }
    }

    /** The refcount blocks are sound as a level of their own. */
    lemma RefcountsValid()
      requires Sound()
      ensures refcounts.Valid(raw)
    {
      TopsDistinct(g, Snap(), ledger);
      forall t | t in refcounts.refblockCache && refcounts.refblockCache[t].dirty && t < |refcounts.refTable.vec|
        ensures raw.Writable(refcounts.refTable.vec[t], g.clusterSize)
      {
        WriteBackRc(g, Snap(), ledger, t);
        CanWrite(refcounts.refTable.vec[t], refcounts.refTable.vec[t], g.clusterSize);
      }
    }

    /** One attempt to set a count, with the cluster it may need. */
    method AttemptSet(address: nat, refcount: nat, newCluster: Option<(nat, VecCache)>) returns (r: SetResult)
      requires Sound() && address in ledger.own && refcount < 0x1_0000
      requires Supplied(g, Snap(), ledger, address, newCluster)
      modifies this`ledger, raw, refcounts
      ensures Sound() && Continued(old(raw.journal), raw.journal)
      ensures Attempted(g, old(Snap()), old(ledger), address, refcount, newCluster, Snap(), ledger, r)
    {
      hide Inv, CommittedOk, JournalOk, CoverageOk, SetEffect, SameAreas, Clear, LevelOk, DistinctTops, Attempted;
      ghost var s0, k0, rt0 := Snap(), ledger, refcounts.refTable;
      ghost var j0 := raw.journal;
      ghost var evicted;
      RefcountsValid();
      SuppliedSize(g, s0, k0, address, newCluster);
      r, evicted := refcounts.SetClusterRefcount(raw, address, refcount, newCluster);
      AttemptHolds(g, s0, k0, address, refcount, newCluster, evicted, Snap(), r);
      ledger := AttemptLedger(g, s0, k0, address, refcount, newCluster, r);
      AttemptedKeeps(g, s0, k0, address, refcount, newCluster, Snap(), ledger, r);
      CommittedKeeps(g, s0.bytes, k0.frozen, j0, l1Table, rt0,
                     raw.bytes, raw.journal, l1Table, refcounts.refTable);
    }

    /**
     * Sets the reference count of a cluster. Returns the refcount block cluster this freed, if any;
     * `added` are the clusters that became refcount blocks on the way.
     */
    method SetClusterRefcount(address: nat, refcount: nat) returns (r: IoResult<seq<nat>>, ghost added: set<nat>)
      requires Sound() && refcount < 0x1_0000
      requires address in ledger.own && !ledger.own[address].Avail?
      modifies this`availClusters, this`ledger, raw, refcounts
      ensures Continued(old(raw.journal), raw.journal)
      ensures r.Err? ==> r.error == ENOSPC
      ensures r.Ok? ==>
                && Sound()
                && CountedAs(g, old(Snap()), old(ledger), Snap(), ledger, address, refcount, added, r.value)
      ensures EasyCount(g, old(Snap()), address) ==> r.Ok? && IsDirty(refcounts.refblockCache, RefIndex(g, address).0)
      decreases FreeClusters(g, Snap())
    {
      hide Inv, CommittedOk, JournalOk, CoverageOk, SameAreas, Clear, LevelOk, Attempted, Allocated, Seeking,
           HalfCounted, CountedAs, FreeClusters, Supplied, EndAddress, EasyCount, RefIndex, IsDirty;
      ghost var s0, k0 := Snap(), ledger;
      added := {};
      var addedClusters: seq<nat> := [];
      var unref: seq<nat> := [];
      var refcountSet := false;
      var newCluster: Option<(nat, VecCache)> := None;
      ghost var rounds := 3;
      SeekStart(g, s0, k0, address);
      while !refcountSet
        invariant Sound() && Continued(old(raw.journal), raw.journal)
        invariant !refcountSet ==> unref == []
        invariant !refcountSet ==> Seeking(g, s0, k0, Snap(), ledger, address, newCluster, addedClusters, rounds)
        invariant refcountSet ==> HalfCounted(g, s0, k0, Snap(), ledger, address, refcount, addedClusters)
        invariant FreedOk(k0.own, ledger.own, unref)
        decreases if refcountSet then 0 else rounds
      {
        ghost var s, k, nc := Snap(), ledger, newCluster;
        SeekSupplied(g, s0, k0, s, k, address, nc, addedClusters, rounds);
        var outcome := AttemptSet(address, refcount, newCluster);
        match outcome
        case Done(dropped) =>
          SeekDone(g, s0, k0, s, k, address, refcount, nc, addedClusters, rounds, Snap(), ledger, outcome);
          if dropped.Some? {
            unref := unref + [dropped.value];
          }
          refcountSet := true;
        case InvalidIndex =>
          AttemptedIndex(g, s, k, address, refcount, nc, Snap(), ledger, outcome);
          assert false;
        case NeedCluster(addr) =>
          // Read the block and try again.
          SeekBlock(g, s0, k0, s, k, address, refcount, nc, addedClusters, rounds, Snap(), ledger, outcome);
          var block := raw.ReadRefcountBlock(addr);
          newCluster := Some((addr, VecCache(block.value, false)));
          rounds := 2;
        case NeedNewCluster =>
          // Allocate a cluster and try again.
          ghost var s1, k1 := Snap(), ledger;
          var newAddr := GetNewCluster();
          if newAddr.Err? {
            SeekFails(g, s0, k0, s, k, address, refcount, nc, addedClusters, rounds, s1, k1, outcome);
            return Err(newAddr.error), {};
          }
          SeekNew(g, s0, k0, s, k, address, refcount, nc, addedClusters, rounds, s1, k1, outcome, Snap(), ledger,
                  newAddr.value);
          addedClusters := addedClusters + [newAddr.value];
          newCluster := Some((newAddr.value, NewBlock(refcounts.refcountBlockEntries)));
          rounds := 1;
      }
      HalfCountedAdded(g, s0, k0, Snap(), ledger, address, refcount, addedClusters);
      HalfEasy(g, s0, k0, Snap(), ledger, address, refcount, addedClusters);
      if addedClusters == [] {
        CountedAlone(g, s0, k0, Snap(), ledger, address, refcount, unref);
        return Ok(unref), {};
      }
      // At most one cluster was added; its own count is set by a nested call.
      ghost var s1, k1, x := Snap(), ledger, addedClusters[0];
      assert addedClusters == [x];
      var nested, nestedAdded := SetClusterRefcount(addedClusters[0], 1);
      if nested.Err? {
        return Err(nested.error), {};
      }
      CountedNested(g, s0, k0, s1, k1, Snap(), ledger, address, refcount, x, nestedAdded, unref, nested.value);
      return Ok(unref), nestedAdded + {x};
    }

    /** Sets a count and queues the refcount block this freed, as every caller does. */
    method SetRefcountAndQueue(address: nat, refcount: nat) returns (r: IoResult<()>, ghost added: set<nat>)
      requires Sound() && refcount < 0x1_0000
      requires address in ledger.own && !ledger.own[address].Avail?
      modifies this`availClusters, this`unrefClusters, this`ledger, raw, refcounts
      ensures Continued(old(raw.journal), raw.journal)
      ensures r.Err? ==> r.error == ENOSPC
      ensures r.Ok? ==>
                && Sound()
                && CountedAndQueued(g, old(Snap()), old(ledger), Snap(), ledger, address, refcount, added)
      ensures EasyCount(g, old(Snap()), address) ==> r.Ok? && IsDirty(refcounts.refblockCache, RefIndex(g, address).0)
    {
      hide Inv, CommittedOk, JournalOk, CoverageOk, SameAreas, CountedAs, CountedAndQueued, FreeClusters, EndAddress,
           EasyCount, IsDirty, RefIndex;
      ghost var s0, k0 := Snap(), ledger;
      var newlyUnref;
      newlyUnref, added := SetClusterRefcount(address, refcount);
      if newlyUnref.Err? {
        return Err(newlyUnref.error), {};
      }
      ghost var s1, k1 := Snap(), ledger;
      QueueFreed(g, s0, k0, s1, k1, address, refcount, added, newlyUnref.value);
      unrefClusters := unrefClusters + newlyUnref.value;
      ledger := QueuedLedger(s1, k1, newlyUnref.value);
      QueuedInv(g, s0, k0, Snap(), ledger, address, refcount, added);
      return Ok(()), added;
    }

    // The mapping.

    /** Reads an L2 table; a table with a compressed entry is not supported. */
    static method ReadL2Cluster(raw: QcowRawFile, clusterAddr: nat) returns (r: IoResult<seq<nat>>)
      requires raw.clusterSize % 8 == 0
      ensures r.Err? ==> r.error == if clusterAddr + raw.clusterSize <= |raw.bytes| then ENOTSUP else UnexpectedEof
      ensures r.Ok? <==> clusterAddr + raw.clusterSize <= |raw.bytes|
                         && !AnyCompressed(Cluster(raw.clusterSize, raw.bytes, clusterAddr), raw.clusterSize / 8)
      ensures r.Ok? ==>
                r.value == DecodeBlock(Pointers, raw.clusterSize, Cluster(raw.clusterSize, raw.bytes, clusterAddr))
    {
      var n := raw.clusterSize / 8;
      assert 8 * n == raw.clusterSize;
      var words := raw.ReadPointerTable(clusterAddr, n, false);
      if words.Err? {
        return Err(words.error);
      }
      var fileValues := words.value;
      ghost var cluster := Cluster(raw.clusterSize, raw.bytes, clusterAddr);
      MaskAfterwards(cluster, n);
      var table: seq<nat> := [];
      for i := 0 to n
        invariant |table| == i
        invariant forall k :: 0 <= k < i ==> !IsCompressed(fileValues[k]) && table[k] == MaskPointer(fileValues[k])
      {
        if IsCompressed(fileValues[i]) {
          return Err(ENOTSUP);
        }
        table := table + [MaskPointer(fileValues[i])];
      }
      assert table == DecodePointers(cluster, n, true);
      return Ok(table);
    }

    /** Puts an L2 table into the cache, writing back the one that has to leave, if any. */
    method CacheL2(index: nat, block: VecCache) returns (evicted: Option<nat>)
      requires Sound() && index !in l2Cache
      modifies this`l2Cache, raw
      ensures raw.Valid() && Continued(old(raw.journal), raw.journal)
      ensures |l2Cache| <= L2_CACHE_CAPACITY
      ensures evicted.Some? ==>
                evicted.value in old(l2Cache) && CachedOk(g.clusterSize, old(raw.bytes), old(Snap()).l2, evicted.value)
      ensures raw.bytes == SwappedBytes(g.clusterSize, old(raw.bytes), old(Snap()).l2, evicted)
      ensures Snap().l2 == Swapped(old(Snap()).l2, evicted, index, block)
    {
      hide Inv, CommittedOk, JournalOk, CoverageOk, SameAreas, Clear, CachedOk;
      ghost var s0 := Snap();
      var before := l2Cache;
      l2Cache, evicted := Insert(l2Cache, L2_CACHE_CAPACITY, index, block);
      if evicted.Some? {
        var e := evicted.value;
        WriteBackL2(g, s0, ledger, e);
        CachedHome(g.clusterSize, s0.bytes, s0.l2, e);
        if before[e].dirty {
          L2Role(g, s0, ledger, e);
          WritableAt(s0, ledger, l1Table.vec[e]);
          raw.WritePointerTable(l1Table.vec[e], before[e].vec, true);
        }
      }
    }

    lemma WritableAt(s: Image, k: Ledger, x: nat)
      requires Inv(g, s, k) && x in k.own && Internal(k.own[x]) && x !in k.frozen.blocks
      requires CommittedOk(g, s.bytes, k.frozen, raw.journal, l1Table, refcounts.refTable)
      requires raw.clusterSize == g.clusterSize
      ensures raw.Writable(x, g.clusterSize)
    {
      hide Inv, Clear;
      ClusterWritable(g, s, k, raw.journal.mapBook.commit, x, x, g.clusterSize);
      ClusterWritable(g, s, k, raw.journal.refBook.commit, x, x, g.clusterSize);
      SlotsBeside(g, s, k, x, x, g.clusterSize);
    }

    /** Reads the L2 table of an allocated L1 entry into the cache; no lookup changes. */
    method LoadL2Table(i: nat) returns (r: IoResult<()>)
      requires Sound() && i < |l1Table.vec| && l1Table.vec[i] != 0 && i !in l2Cache
      modifies this`l2Cache, raw
      ensures Continued(old(raw.journal), raw.journal)
      ensures r.Ok? && Sound() && i in l2Cache && Quiet(g, old(Snap()), Snap())
    {
      hide Plain, Inv, CommittedOk, JournalOk, CoverageOk, SameAreas, Clear, CachedOk, Contents, SameBlocks, LevelOk;
      ghost var s0 := Snap();
      ghost var j0 := raw.journal;
      InvShape(g, s0, ledger);
      HomeInFile(g.clusterSize, s0.bytes, s0.l2, i);
      HomePlain(g.clusterSize, s0.bytes, s0.l2, i);
      var table := ReadL2Cluster(raw, l1Table.vec[i]);
      var evicted := CacheL2(i, VecCache(table.value, false));
      SwapL2(g, s0, ledger, evicted, i);
      assert Snap() == L2Swapped(g, s0, evicted, i);
      CommittedKeeps(g, s0.bytes, ledger.frozen, j0, l1Table, refcounts.refTable,
                     raw.bytes, raw.journal, l1Table, refcounts.refTable);
      return Ok(());
    }

    /**
     * The host offset of a guest address, or None where nothing is allocated. Only the caches
     * change.
     */
    method FileOffsetRead(address: nat) returns (r: IoResult<Option<nat>>)
      requires Sound()
      modifies this`l2Cache, raw
      ensures Continued(old(raw.journal), raw.journal)
      ensures r.Err? <==> address >= g.size
      ensures r.Err? ==> r.error == EINVAL
      ensures r.Ok? ==>
                && Sound() && Quiet(g, old(Snap()), Snap())
                && var a := MapEntry(g, raw.bytes, Snap().l2, VirtualCluster(g, address));
                   r.value == if a == 0 then None else Some(a + ClusterOffset(g, address))
    {
      hide Wired, Committed, Inv, CommittedOk, JournalOk, CoverageOk, SameAreas, Clear, CachedOk, Contents,
           SameBlocks, LevelOk, MapEntry, MapIndex, VirtualCluster, ClusterOffset, Quiet;
      SoundBasics();
      if address >= g.size {
        return Err(EINVAL);
      }
      ghost var s0 := Snap();
      InvShape(g, s0, ledger);
      IndexInRange(g, address);
      var (l1Index, l2Index) := MapIndex(g, VirtualCluster(g, address));
      QuietSelf(g, s0, ledger);
      if l1Table.vec[l1Index] == 0 {
        // No table: the address is not mapped.
        NoTable(g, s0, ledger, l1Index, l2Index);
        EntryOf(g, s0, VirtualCluster(g, address));
        return Ok(None);
      }
      if l1Index !in l2Cache {
        var _ := LoadL2Table(l1Index);
      }
      L2Role(g, Snap(), ledger, l1Index);
      EntryCached(g, Snap(), VirtualCluster(g, address));
      var clusterAddr := l2Cache[l1Index].vec[l2Index];
      if clusterAddr == 0 {
        return Ok(None);
      }
      return Ok(Some(clusterAddr + ClusterOffset(g, address)));
    }

    /** The L2 table of an L1 entry, allocated if there is none, comes into the cache. */
    method PrepareL2(i: nat) returns (r: IoResult<seq<(nat, nat)>>)
      requires Sound() && i < |l1Table.vec|
      modifies this`l1Table, this`l2Cache, this`availClusters, this`ledger, raw
      ensures Continued(old(raw.journal), raw.journal)
      ensures r.Err? ==> r.error == ENOSPC
      ensures r.Ok? ==>
                && Sound() && Quiet(g, old(Snap()), Snap()) && i in l2Cache
                && ledger.frozen == old(ledger).frozen
                && ledger.pending <= old(ledger).pending + PaysFor(r.value)
                && DuesOk(ledger, r.value)
    {
      hide Wired, Committed, Inv, CommittedOk, JournalOk, CoverageOk, SameAreas, Clear, CachedOk, Contents,
           SameBlocks, LevelOk, Allocated, SwappedBytes;
      SoundBasics();
      ghost var s0, k0 := Snap(), ledger;
      InvShape(g, s0, k0);
      QuietSelf(g, s0, k0);
      if i in l2Cache {
        return Ok([]);
      }
      if l1Table.vec[i] != 0 {
        var _ := LoadL2Table(i);
        return Ok([]);
      }
      var added := NewL2Table(i);
      return added;
    }

    method NewL2Table(i: nat) returns (r: IoResult<seq<(nat, nat)>>)
      requires Sound() && i < |l1Table.vec| && l1Table.vec[i] == 0 && i !in l2Cache
      modifies this`l1Table, this`l2Cache, this`availClusters, this`ledger, raw
      ensures Continued(old(raw.journal), raw.journal)
      ensures r.Err? ==> r.error == ENOSPC
      ensures r.Ok? ==>
                && Sound() && Quiet(g, old(Snap()), Snap()) && i in l2Cache
                && ledger.frozen == old(ledger).frozen
                && ledger.pending <= old(ledger).pending + PaysFor(r.value)
                && DuesOk(ledger, r.value)
    {
      hide Inv, CommittedOk, JournalOk, CoverageOk, Clear, CachedOk, LevelOk, Quiet, SwappedBytes, SameAreas;
      ghost var s0 := Snap();
      var newAddr := LinkNewL2(i);
      if newAddr.Err? {
        return Err(newAddr.error);
      }
      var x := newAddr.value;
      ghost var s2 := Snap();
      ghost var j2 := raw.journal;
      var evicted := CacheL2(i, NewBlock(g.clusterSize / 8));
      SwapNewL2(g, s2, ledger, evicted, i);
      assert Snap() == L2SwappedNew(g, s2, evicted, i);
      QuietAreas(g, s2, Snap());
      CommittedKeeps(g, s2.bytes, ledger.frozen, j2, l1Table, refcounts.refTable,
                     raw.bytes, raw.journal, l1Table, refcounts.refTable);
      QuietTrans(g, s0, s2, Snap());
      PaysForNew(x);
      return Ok([(x, 1)]);
    }

    /** Allocates a cluster for an L2 table and points the L1 entry at it. */
    method LinkNewL2(i: nat) returns (r: IoResult<nat>)
      requires Sound() && i < |l1Table.vec| && l1Table.vec[i] == 0 && i !in l2Cache
      modifies this`l1Table, this`availClusters, this`ledger, raw
      ensures Continued(old(raw.journal), raw.journal)
      ensures r.Err? ==> r.error == ENOSPC
      ensures r.Ok? ==>
                var x := r.value;
                && Sound() && Quiet(g, old(Snap()), Snap())
                && |l1Table.vec| == |old(l1Table).vec| && l1Table.vec[i] == x != 0
                && x in ledger.own && ledger.own[x] == L2Table(i) && x !in ledger.frozen.blocks
                && x + g.clusterSize <= |raw.bytes|
                && Cluster(g.clusterSize, raw.bytes, x) == Zeros(g.clusterSize)
                && ledger.frozen == old(ledger).frozen && ledger.pending == old(ledger).pending + {x}
    {
      hide Inv, CommittedOk, JournalOk, CoverageOk, Clear, Allocated, Quiet, Untouched, SameAreas;
      ghost var s0, k0 := Snap(), ledger;
      var newAddr := GetNewCluster();
      if newAddr.Err? {
        return Err(newAddr.error);
      }
      var x := newAddr.value;
      ghost var s1, k1 := Snap(), ledger;
      ghost var j1 := raw.journal;
      AllocatedZero(g, s0, k0, s1, k1, x);
      LinkL2(g, s1, k1, i, x);
      l1Table := l1Table.Set(i, x);
      ledger := k1.(own := k1.own[x := L2Table(i)], pending := k1.pending + {x});
      assert Snap() == L2Linked(s1, i, x);
      QuietAreas(g, s1, Snap());
      CommittedKeeps(g, s1.bytes, k1.frozen, j1, old(l1Table), refcounts.refTable,
                     raw.bytes, raw.journal, l1Table, refcounts.refTable);
      QuietTrans(g, s0, s1, Snap());
      return Ok(x);
    }

    /** Allocates a zeroed data cluster with a count of one; it is not mapped yet. */
    method AppendDataCluster() returns (r: IoResult<nat>)
      requires Sound()
      modifies this`availClusters, this`unrefClusters, this`ledger, raw, refcounts
      ensures Continued(old(raw.journal), raw.journal)
      ensures r.Err? ==> r.error == ENOSPC
      ensures r.Ok? ==>
                var d := r.value;
                && Sound() && Background(g, old(Snap()), old(ledger), Snap(), ledger)
                && d in ledger.own && ledger.own[d] == Held && d + g.clusterSize <= |raw.bytes|
                && Cluster(g.clusterSize, raw.bytes, d) == Zeros(g.clusterSize)
                && Count(g, raw.bytes, Snap().rc, d) == 1 && d != 0
                && ledger.pending <= old(ledger).pending
    {
      hide Wired, Committed, Inv, CommittedOk, JournalOk, CoverageOk, Clear, Allocated, CountedAndQueued, SameAreas,
           Background, Untouched, Quiet;
      SoundBasics();
      ghost var s0, k0 := Snap(), ledger;
      var newAddr := GetNewCluster();
      if newAddr.Err? {
        return Err(newAddr.error);
      }
      var d := newAddr.value;
      ghost var s1, k1 := Snap(), ledger;
      AllocatedZero(g, s0, k0, s1, k1, d);
      var counted, added := SetRefcountAndQueue(d, 1);
      if counted.Err? {
        return Err(counted.error);
      }
      AppendedData(g, s0, k0, s1, k1, Snap(), ledger, d, added);
      return Ok(d);
    }

    /**
     * Points the L1 and L2 tables to the data cluster `d` for virtual cluster `c`. A table that is
     * not dirty is first given a new cluster, so that L1 on disk never points at a half-written one.
     * Returns the counts that are now to be set. When no cluster is left the error comes after the
     * cluster of the table, still in use, was queued for reuse.
     */
    method UpdateClusterAddr(ghost c: nat, i: nat, j: nat, d: nat, setRefcounts: seq<(nat, nat)>)
      returns (r: IoResult<seq<(nat, nat)>>)
      requires Sound() && Mappable(g, Snap(), ledger, c, d) && (i, j) == MapIndex(g, c)
      requires DuesOk(ledger, setRefcounts) && ledger.pending <= PaysFor(setRefcounts)
      modifies this`l1Table, this`l2Cache, this`availClusters, this`unrefClusters, this`ledger, raw
      ensures Continued(old(raw.journal), raw.journal)
      ensures r.Err? <==> !old(l2Cache)[i].dirty && FreeClusters(g, old(Snap())) == 0
      ensures r.Err? ==>
                && r.error == ENOSPC && l1Table == old(l1Table) && l2Cache == old(l2Cache) && i < |l1Table.vec|
                && l1Table.vec[i] != 0 && unrefClusters == old(unrefClusters) + [l1Table.vec[i]]
      ensures r.Ok? ==> Sound() && Mapped(g, old(Snap()), old(ledger), Snap(), ledger, c, d, r.value)
    {
      hide Inv, CommittedOk, JournalOk, CoverageOk, Clear, Allocated, SameAreas, Quiet, Untouched, Mapped, Cluster,
           Count, FreeClusters, DuesOk, PaysFor;
      ghost var s0, k0 := Snap(), ledger;
      L2Role(g, s0, k0, i);
      if l2Cache[i].dirty {
        MapInDirty(g, s0, k0, c, d, setRefcounts);
        l2Cache := l2Cache[i := l2Cache[i].Set(j, d)];
        ledger := ledger.(own := ledger.own[d := Data(i, j)]);
        SetSize(old(l2Cache), i, l2Cache[i]);
        MappedInv(g, s0, k0, Snap(), ledger, c, d, setRefcounts);
        return Ok(setRefcounts);
      }
      var addr := l1Table.vec[i];
      var newAddr := GetNewCluster();
      ghost var s1, k1 := Snap(), ledger;
      ghost var j1 := raw.journal;
      unrefClusters := unrefClusters + [addr];
      if newAddr.Err? {
        return Err(newAddr.error);
      }
      var x := newAddr.value;
      MapInMoved(g, s0, k0, s1, k1, c, d, x, setRefcounts);
      l1Table := l1Table.Set(i, x);
      SetSize(l2Cache, i, l2Cache[i].Set(j, d));
      l2Cache := l2Cache[i := l2Cache[i].Set(j, d)];
      ledger := MovedLedger(s1, k1, i, j, d, x);
      assert Snap() == MovedAndMapped(s1, i, j, d, x);
      MappedInv(g, s0, k0, Snap(), ledger, c, d, setRefcounts + [(addr, 0), (x, 1)]);
      AreasSelf(g, Snap(), ledger);
      CommittedKeeps(g, s1.bytes, k1.frozen, j1, old(l1Table), refcounts.refTable,
                     raw.bytes, raw.journal, l1Table, refcounts.refTable);
      return Ok(setRefcounts + [(addr, 0), (x, 1)]);
    }

    /** Sets the counts on the list, in order; afterwards none is pending. */
    method SetRefcounts(dues: seq<(nat, nat)>) returns (r: IoResult<()>)
      requires Sound() && DuesOk(ledger, dues) && ledger.pending <= PaysFor(dues)
      modifies this`availClusters, this`unrefClusters, this`ledger, raw, refcounts
      ensures Continued(old(raw.journal), raw.journal)
      ensures r.Err? ==> r.error == ENOSPC
      ensures r.Ok? ==> Sound() && ledger.pending == {} && Background(g, old(Snap()), old(ledger), Snap(), ledger)
    {
      hide Inv, CommittedOk, JournalOk, CoverageOk, Clear, SameAreas, CountedAndQueued, Background, PaysFor;
      ghost var s0, k0 := Snap(), ledger;
      BackgroundSelf(g, s0, k0);
      assert dues[0..] == dues;
      for m := 0 to |dues|
        invariant Sound() && Continued(old(raw.journal), raw.journal)
        invariant Background(g, s0, k0, Snap(), ledger)
        invariant DuesOk(ledger, dues[m..]) && ledger.pending <= PaysFor(dues[m..])
      {
        ghost var s, k, rest := Snap(), ledger, dues[m..];
        assert rest[0] == dues[m] && rest[1..] == dues[m + 1..];
        var counted, added := SetRefcountAndQueue(dues[m].0, dues[m].1);
        if counted.Err? {
          return Err(counted.error);
        }
        DuePaid(g, s0, k0, s, k, rest, Snap(), ledger, added);
        ledger := Settle(ledger, dues[m].0, dues[m].1);
      }
      NothingDue();
      return Ok(());
    }

    lemma NothingDue()
      ensures PaysFor([]) == {}
    {
    }

    /** Allocates a data cluster and maps it for virtual cluster `c`, which had none. */
    method MapNewCluster(ghost c: nat, i: nat, j: nat, dues: seq<(nat, nat)>)
      returns (r: IoResult<(nat, seq<(nat, nat)>)>)
      requires Sound() && (i, j) == MapIndex(g, c) && i in l2Cache && j < |l2Cache[i].vec|
      requires MapEntry(g, raw.bytes, Snap().l2, c) == 0
      requires DuesOk(ledger, dues) && ledger.pending <= PaysFor(dues)
      modifies this`l1Table, this`l2Cache, this`availClusters, this`unrefClusters, this`ledger, raw, refcounts
      ensures Continued(old(raw.journal), raw.journal)
      ensures r.Err? ==> r.error == ENOSPC
      ensures r.Ok? ==>
                && Sound() && Disk() == old(Disk()) && ledger.frozen == old(ledger).frozen
                && r.value.0 != 0 && MapEntry(g, raw.bytes, Snap().l2, c) == r.value.0 && i in l2Cache
                && DuesOk(ledger, r.value.1) && ledger.pending <= PaysFor(r.value.1)
    {
      hide Wired, Committed, Inv, CommittedOk, JournalOk, CoverageOk, Clear, SameAreas, Contents, DuesOk, PaysFor,
           Background, Mapped, Mappable, MapEntry, FreeClusters, Cluster, Count;
      SoundBasics();
      ghost var s1, k1 := Snap(), ledger;
      var appended := AppendDataCluster();
      if appended.Err? {
        return Err(appended.error);
      }
      var d := appended.value;
      ghost var s2, k2 := Snap(), ledger;
      ReadyToMap(g, s1, k1, s2, k2, c, d, dues);
      var updated := UpdateClusterAddr(c, i, j, d, dues);
      if updated.Err? {
        return Err(updated.error);
      }
      MappedFacts(g, s2, k2, Snap(), ledger, c, d, updated.value);
      return Ok((d, updated.value));
    }

    /**
     * The host offset of a guest address, allocating tables and the data cluster where needed. The
     * virtual disk does not change: a new cluster reads as zero, as the missing one did.
     */
    method FileOffsetWrite(address: nat) returns (r: IoResult<nat>)
      requires Valid()
      modifies this`l1Table, this`l2Cache, this`availClusters, this`unrefClusters, this`ledger, raw, refcounts
      ensures Continued(old(raw.journal), raw.journal)
      ensures address >= g.size ==> r == Err(EINVAL)
      ensures address < g.size && r.Err? ==> r.error == ENOSPC
      ensures r.Ok? ==>
                && Valid() && Disk() == old(Disk()) && ledger.frozen == old(ledger).frozen
                && var a := MapEntry(g, raw.bytes, Snap().l2, VirtualCluster(g, address));
                   a != 0 && r.value == a + ClusterOffset(g, address)
    {
      hide Continued, Wired, Committed, Inv, CommittedOk, JournalOk, CoverageOk, Clear, SameAreas, Contents, Quiet,
           DuesOk, PaysFor, Background, MapEntry, ClusterOffset, VirtualCluster;
      SoundBasics();
      ContinuedSelf(raw.journal);
      if address >= g.size {
        return Err(EINVAL);
      }
      ghost var s0, k0, j0 := Snap(), ledger, raw.journal;
      InvShape(g, s0, k0);
      IndexInRange(g, address);
      var c := VirtualCluster(g, address);
      var (l1Index, l2Index) := MapIndex(g, c);
      var prepared := PrepareL2(l1Index);
      if prepared.Err? {
        return Err(prepared.error);
      }
      var dues := prepared.value;
      ghost var s1, k1, j1 := Snap(), ledger, raw.journal;
      QuietFacts(g, s0, s1, c, 0);
      L2Role(g, s1, k1, l1Index);
      EntryCached(g, s1, c);
      var clusterAddr := l2Cache[l1Index].vec[l2Index];
      if clusterAddr == 0 {
        var added := MapNewCluster(c, l1Index, l2Index, dues);
        ContinuedTrans(j0, j1, raw.journal);
        if added.Err? {
          return Err(added.error);
        }
        clusterAddr, dues := added.value.0, added.value.1;
      }
      ghost var s3, k3, j3 := Snap(), ledger, raw.journal;
      var paid := SetRefcounts(dues);
      ContinuedTrans(j0, j3, raw.journal);
      if paid.Err? {
        return Err(paid.error);
      }
      BackgroundFacts(g, s3, k3, Snap(), ledger, c);
      return Ok(clusterAddr + ClusterOffset(g, address));
    }

    // Discarding.

    /** The reference count of a cluster in use; only the cache of refcount blocks changes. */
    method RefcountOf(address: nat) returns (r: IoResult<nat>)
      requires Sound() && address in ledger.own
      modifies raw, refcounts`refblockCache
      ensures Sound() && Continued(old(raw.journal), raw.journal)
      ensures Quiet(g, old(Snap()), Snap()) && |raw.bytes| == |old(raw.bytes)|
      ensures r == Ok(Count(g, old(raw.bytes), old(Snap()).rc, address))
    {
      hide Inv, CommittedOk, JournalOk, CoverageOk, Clear, SameAreas, Contents, Quiet, LevelOk, DistinctTops, Entry,
           Untouched, SwappedBytes, CachedOk;
      ghost var s0 := Snap();
      ghost var j0 := raw.journal;
      RefcountsValid();
      SlotInBlock(g, s0, ledger, address);
      ghost var loaded, evicted;
      r, loaded, evicted := refcounts.GetClusterRefcount(raw, address);
      if loaded.Some? {
        SwapRc(g, s0, ledger, evicted, loaded.value);
        assert Snap() == RcSwapped(g, s0, evicted, loaded.value);
        SwappedLength(g.clusterSize, s0.bytes, s0.rc, evicted);
      } else {
        QuietSelf(g, s0, ledger);
        assert Snap() == s0;
      }
      QuietAreas(g, s0, Snap());
      CommittedKeeps(g, s0.bytes, ledger.frozen, j0, l1Table, refcounts.refTable,
                     raw.bytes, raw.journal, l1Table, refcounts.refTable);
    }

    /**
     * Clears the entry of virtual cluster `c`. The L2 table is edited in place, so its cluster is
     * no longer protected by the commits.
     */
    method ClearEntry(ghost c: nat, i: nat, j: nat)
      requires Sound() && (i, j) == MapIndex(g, c) && i in l2Cache && j < |l2Cache[i].vec| && l2Cache[i].vec[j] != 0
      modifies this`l2Cache, this`ledger, raw`journal
      ensures Sound() && raw.bytes == old(raw.bytes)
      ensures var d := old(l2Cache)[i].vec[j];
              && d in ledger.own && ledger.own[d] == Dropped && d !in ledger.frozen.blocks
              && d !in ledger.pending && ledger.pending <= old(ledger).pending
      ensures Zeroed(g, old(Disk()), Disk(), c)
      ensures Discarded(old(raw.journal), raw.journal)
    {
      hide Inv, CommittedOk, JournalOk, CoverageOk, Contents, Discarded;
      ghost var s0, k0 := Snap(), ledger;
      L2Role(g, s0, k0, i);
      ghost var d, home := l2Cache[i].vec[j], l1Table.vec[i];
      DataNotFrozen(g, s0, k0, i, j);
      Unmap(g, s0, k0, i, j, d);
      l2Cache := l2Cache[i := l2Cache[i].Set(j, 0)];
      SetSize(old(l2Cache), i, l2Cache[i]);
      ghost var s1 := Snap();
      ledger := k0.(own := k0.own[d := Dropped], frozen := k0.frozen.Without(home));
      TrimPending(g, s1, ledger, d);
      ledger := ledger.(pending := ledger.pending - {d});
      assert s1 == Unmapped(s0, i, j);
      UnmappedContents(g, s0, k0, s1, c);
      CommittedThaw(g, s0.bytes, k0.frozen, raw.journal, l1Table, refcounts.refTable, home);
      ThawOk(raw.clusterSize, raw.bytes, raw.journal, home);
      raw.journal := Thawed(raw.journal, home);
    }

    /** Drops the storage of the cluster at `address`, which then reads as zero. */
    method DeallocateCluster(address: nat) returns (r: IoResult<()>)
      requires Valid()
      modifies this`l2Cache, this`availClusters, this`unrefClusters, this`ledger, raw, refcounts
      ensures address >= g.size ==> r == Err(EINVAL)
      ensures address < g.size && r.Err? ==> r.error == ENOSPC
      ensures r.Ok? ==> Valid() && Zeroed(g, old(Disk()), Disk(), VirtualCluster(g, address))
      ensures Discarded(old(raw.journal), raw.journal)
    {
      hide Continued, Discarded, Wired, Committed, Inv, CommittedOk, JournalOk, CoverageOk, Clear, SameAreas,
           Contents, Quiet, LevelOk, VirtualCluster, Zeroed;
      SoundBasics();
      ghost var j0 := raw.journal;
      ContinuedSelf(j0);
      DiscardedTrans(j0, j0, j0);
      if address >= g.size {
        return Err(EINVAL);
      }
      ghost var s0 := Snap();
      InvShape(g, s0, ledger);
      IndexInRange(g, address);
      var c := VirtualCluster(g, address);
      var (l1Index, l2Index) := MapIndex(g, c);
      if l1Table.vec[l1Index] == 0 {
        // Without an L2 table there is nothing to drop.
        NoTable(g, s0, ledger, l1Index, l2Index);
        AlreadyZero(g, s0, c);
        return Ok(());
      }
      if l1Index !in l2Cache {
        var _ := LoadL2Table(l1Index);
        QuietFacts(g, s0, Snap(), c, 0);
        DiscardedTrans(j0, j0, raw.journal);
      }
      L2Role(g, Snap(), ledger, l1Index);
      EntryCached(g, Snap(), c);
      if l2Cache[l1Index].vec[l2Index] == 0 {
        AlreadyZero(g, Snap(), c);
        return Ok(());
      }
      ghost var j1 := raw.journal;
      var dropped := DropEntry(c, l1Index, l2Index);
      DiscardedTrans(j0, j1, raw.journal);
      return dropped;
    }

    /** Decrements the count of a mapped data cluster, clears its entry, and frees it with the last reference. */
    method DropEntry(ghost c: nat, i: nat, j: nat) returns (r: IoResult<()>)
      requires Valid() && (i, j) == MapIndex(g, c) && i in l2Cache && j < |l2Cache[i].vec| && l2Cache[i].vec[j] != 0
      modifies this`l2Cache, this`availClusters, this`unrefClusters, this`ledger, raw, refcounts
      ensures r.Err? ==> r.error == ENOSPC
      ensures r.Ok? ==> Valid() && Zeroed(g, old(Disk()), Disk(), c)
      ensures Discarded(old(raw.journal), raw.journal)
    {
      hide Continued, Discarded, Wired, Committed, Inv, CommittedOk, JournalOk, CoverageOk, Clear, SameAreas,
           Contents, Quiet, CountedAndQueued, Count;
      SoundBasics();
      ghost var j0 := raw.journal;
      var clusterAddr := l2Cache[i].vec[j];
      ghost var s0, k0 := Snap(), ledger;
      DataCounted(g, s0, k0, i, j);
      var refcount := RefcountOf(clusterAddr);
      ghost var s1, k1, j1 := Snap(), ledger, raw.journal;
      QuietFacts(g, s0, s1, c, clusterAddr);
      // A count of zero would be an error; a mapped cluster never has one.
      assert refcount.value >= 1;
      var newRefcount := refcount.value - 1;
      var counted, added := SetRefcountAndQueue(clusterAddr, newRefcount);
      DiscardedTrans(j0, j1, raw.journal);
      if counted.Err? {
        return Err(counted.error);
      }
      StillMapped(g, s1, k1, Snap(), ledger, clusterAddr, newRefcount, added);
      ghost var j2 := raw.journal;
      ClearEntry(c, i, j);
      DiscardedTrans(j0, j2, raw.journal);
      assert ledger.pending == {};
      if newRefcount == 0 {
        ghost var j3 := raw.journal;
        FreeData(clusterAddr);
        DiscardedTrans(j0, j3, raw.journal);
      }
      return Ok(());
    }

    /**
     * The storage of a data cluster without references is deallocated, if the file system supports
     * that, and its address is queued for reuse.
     */
    method FreeData(clusterAddr: nat)
      requires Valid() && clusterAddr in ledger.own && ledger.own[clusterAddr] == Dropped
      requires clusterAddr !in ledger.frozen.blocks
      modifies this`unrefClusters, this`ledger, raw
      ensures Valid() && Disk() == old(Disk()) && unrefClusters == old(unrefClusters) + [clusterAddr]
      ensures SamePages(old(raw.journal), raw.journal)
    {
      hide Inv, CommittedOk, JournalOk, CoverageOk, Clear, SameAreas, Contents, Quiet;
      var supported: bool := *;
      if supported {
        ghost var s0 := Snap();
        ghost var j0 := raw.journal;
        PunchDropped(g, s0, ledger, clusterAddr);
        ghost var slots := ledger.frozen.slots;
        ghost var slot := if clusterAddr in slots then slots[clusterAddr] else (0, 0);
        ghost var t := Touch(slot.0, slot.1, 0, Zeros(g.clusterSize));
        CanTouch(clusterAddr, t);
        raw.WriteData(clusterAddr, Zeros(g.clusterSize), clusterAddr, t);
        QuietFacts(g, s0, Snap(), 0, 0);
        CommittedKeeps(g, s0.bytes, ledger.frozen, j0, l1Table, refcounts.refTable,
                       raw.bytes, raw.journal, l1Table, refcounts.refTable);
      }
      QueueDropped(g, Snap(), ledger, clusterAddr);
      ledger := ledger.(own := ledger.own[clusterAddr := Unref(|unrefClusters|)]);
      unrefClusters := unrefClusters + [clusterAddr];
    }

    // Reading and writing.

    /** Reads one piece that lies in a single cluster. */
    method ReadPiece(address: nat, count: nat) returns (r: IoResult<seq<byte>>)
      requires Valid() && 0 < count && address + count <= g.size && ClusterOffset(g, address) + count <= g.clusterSize
      modifies this`l2Cache, raw
      ensures Continued(old(raw.journal), raw.journal)
      ensures r.Ok? && Valid() && Disk() == old(Disk())
      ensures r.value == Disk()[address..address + count]
    {
      hide Wired, Committed, Inv, CommittedOk, JournalOk, CoverageOk, Clear, SameAreas, Contents, Quiet, MapEntry,
           ClusterOffset, VirtualCluster;
      SoundBasics();
      ghost var s0 := Snap();
      var located := FileOffsetRead(address);
      QuietFacts(g, s0, Snap(), 0, 0);
      PieceOfDisk(g, Snap(), ledger, address, count);
      if located.value.None? {
        // A hole reads as zero.
        return Ok(Zeros(count));
      }
      var data := raw.ReadAt(located.value.value, count);
      return data;
    }

    method Advance(n: nat)
      requires Valid() && currentOffset + n <= g.size
      modifies this`currentOffset
      ensures Valid() && Disk() == old(Disk()) && currentOffset == old(currentOffset) + n
    {
      hide Inv, CommittedOk, JournalOk, CoverageOk, Contents;
      currentOffset := currentOffset + n;
    }

    /** `Read::read`: fills `buf` from the current offset as far as the disk reaches. */
    method Read(buf: array<byte>) returns (r: IoResult<nat>)
      requires Valid()
      modifies this`l2Cache, this`currentOffset, raw, buf
      ensures Continued(old(raw.journal), raw.journal)
      ensures var n := LimitRangeFile(g.size, old(currentOffset), buf.Length);
                && r == Ok(n) && Valid() && Disk() == old(Disk())
                && old(currentOffset) + n <= g.size == |Disk()|
                && buf[..n] == Disk()[old(currentOffset)..old(currentOffset) + n]
                && buf[n..] == old(buf[n..]) && currentOffset == old(currentOffset) + n
    {
      hide Continued, Valid, Disk, Contents, ClusterOffset, Filled, Splice;
      ValidBasics();
      var address := currentOffset;
      var readCount := LimitRangeFile(g.size, address, buf.Length);
      ghost var disk, before := Disk(), buf[..];
      var nread := 0;
      FillNone(disk, address, before);
      ContinuedSelf(raw.journal);
      while nread < readCount
        invariant nread <= readCount && Valid() && Disk() == disk
        invariant Continued(old(raw.journal), raw.journal)
        invariant currentOffset == address
        invariant buf[..] == Filled(disk, address, before, nread)
      {
        var currAddr := address + nread;
        var count := LimitRangeCluster(g, currAddr, readCount - nread);
        ghost var j1 := raw.journal;
        var piece := ReadPiece(currAddr, count);
        ContinuedTrans(old(raw.journal), j1, raw.journal);
        ghost var filled := buf[..];
        CopyInto(buf, nread, piece.value);
        assert buf[..] == Splice(filled, nread, piece.value);
        FillMore(disk, address, before, nread, count);
        nread := nread + count;
      }
      Advance(readCount);
      FillDone(disk, address, before, readCount);
      assert buf[..readCount] == buf[..][..readCount] && buf[readCount..] == buf[..][readCount..];
      return Ok(readCount);
    }

    /** Overwrites guest data where it is mapped, at `offset` of the file. */
    method PutData(offset: nat, piece: seq<byte>, ghost address: nat)
      requires Valid() && piece != [] && address + |piece| <= g.size && 8 <= g.clusterSize
      requires ClusterOffset(g, address) + |piece| <= g.clusterSize
      requires var a := MapEntry(g, raw.bytes, Snap().l2, VirtualCluster(g, address));
               a != 0 && offset == a + ClusterOffset(g, address)
      modifies raw
      ensures Valid() && Disk() == Splice(old(Disk()), address, piece) && SamePages(old(raw.journal), raw.journal)
      ensures raw.journal.guest == old(raw.journal).guest[|old(raw.journal).images| := TouchOf(g, address, piece)]
    {
      hide Inv, CommittedOk, JournalOk, CoverageOk, Clear, Contents, MapEntry, ClusterOffset, VirtualCluster, SameAreas,
           Hosts, MapIndex, Splice, SamePages;
      ghost var s0, j0 := Snap(), raw.journal;
      ghost var a, t := MapEntry(g, raw.bytes, s0.l2, VirtualCluster(g, address)), TouchOf(g, address, piece);
      WriteData(g, s0, ledger, address, piece);
      DataHome(g, s0, ledger, VirtualCluster(g, address));
      CanTouch(a, t);
      raw.WriteData(offset, piece, a, t);
      assert Snap() == DataWritten(s0, offset, piece);
      CommittedKeeps(g, s0.bytes, ledger.frozen, j0, l1Table, refcounts.refTable,
                     raw.bytes, raw.journal, l1Table, refcounts.refTable);
    }

    /** Writes one piece that lies in a single cluster. */
    method WritePiece(address: nat, piece: seq<byte>) returns (r: IoResult<()>)
      requires Valid() && piece != [] && address + |piece| <= g.size
      requires ClusterOffset(g, address) + |piece| <= g.clusterSize
      modifies this`l1Table, this`l2Cache, this`availClusters, this`unrefClusters, this`ledger, raw, refcounts
      ensures SamePages(old(raw.journal), raw.journal) && 8 <= g.clusterSize
      ensures GuestKept(old(raw.journal), raw.journal) && WroteOnly(g, old(raw.journal), raw.journal, address, piece)
      ensures r.Err? ==> r.error == ENOSPC
      ensures r.Ok? ==> Valid() && Disk() == Splice(old(Disk()), address, piece)
    {
      hide Inv, CommittedOk, JournalOk, CoverageOk, Clear, Contents, MapEntry, ClusterOffset, VirtualCluster, SameAreas,
           Hosts, PartOf, MapIndex, Splice, Continued, SamePages, GuestKept, WroteOnly;
      ghost var j := raw.journal;
      SoundBasics();
      var located := FileOffsetWrite(address);
      if located.Err? {
        WroteUnder(g, j, raw.journal, address, piece);
        return Err(located.error);
      }
      ghost var b1, j1 := raw.bytes, raw.journal;
      PutData(located.value, piece, address);
      PieceIsPart(g, address, piece);
      WroteOne(g, b1, j, j1, raw.journal, TouchOf(g, address, piece), address, piece);
      return Ok(());
    }

    /** `Write::write`: writes `buf` at the current offset as far as the disk reaches. */
    method Write(buf: seq<byte>) returns (r: IoResult<nat>)
      requires Valid()
      modifies this`l1Table, this`l2Cache, this`availClusters, this`unrefClusters, this`ledger, this`currentOffset,
               raw, refcounts
      ensures SamePages(old(raw.journal), raw.journal)
      ensures r.Err? ==> r.error == ENOSPC && currentOffset == old(currentOffset)
      ensures r.Ok? ==>
                var n := LimitRangeFile(g.size, old(currentOffset), |buf|);
                && 8 <= g.clusterSize && GuestKept(old(raw.journal), raw.journal)
                && WroteOnly(g, old(raw.journal), raw.journal, old(currentOffset), buf[..n])
                && r.value == n && Valid() && old(currentOffset) + n <= g.size == |old(Disk())|
                && Disk() == Splice(old(Disk()), old(currentOffset), buf[..n])
                && currentOffset == old(currentOffset) + n
    {
      hide SamePages, GuestKept, WroteOnly, Valid, Disk, Contents, ClusterOffset;
      ValidBasics();
      var address := currentOffset;
      var writeCount := LimitRangeFile(g.size, address, |buf|);
      ghost var disk := Disk();
      var nwritten := 0;
      SpliceNothing(disk, address);
      ContinuedSelf(raw.journal);
      WroteUnder(g, raw.journal, raw.journal, address, buf[..0]);
      assert buf[..0] == [];
      while nwritten < writeCount
        invariant nwritten <= writeCount && Valid()
        invariant SamePages(old(raw.journal), raw.journal) && GuestKept(old(raw.journal), raw.journal)
        invariant WroteOnly(g, old(raw.journal), raw.journal, address, buf[..nwritten])
        invariant currentOffset == address
        invariant Disk() == Splice(disk, address, buf[..nwritten])
      {
        var currAddr := address + nwritten;
        var count := LimitRangeCluster(g, currAddr, writeCount - nwritten);
        ghost var j1 := raw.journal;
        var piece := WritePiece(currAddr, buf[nwritten..nwritten + count]);
        PagesTrans(old(raw.journal), j1, raw.journal);
        if piece.Err? {
          return Err(piece.error);
        }
        WroteMore(g, old(raw.journal), j1, raw.journal, address, buf, nwritten, count);
        SpliceMore(disk, address, buf, nwritten, count);
        nwritten := nwritten + count;
      }
      Advance(writeCount);
      return Ok(writeCount);
    }

    /** `Seek::seek`: moves the current offset; a position past the end is refused. */
    method Seek(pos: SeekFrom) returns (r: IoResult<nat>)
      requires Valid()
      modifies this`currentOffset
      ensures Valid() && Disk() == old(Disk())
      ensures var target := SeekTarget(pos, g.size, old(currentOffset));
              if 0 <= target <= g.size
              then r == Ok(target) && currentOffset == target
              else r == Err(EINVAL) && currentOffset == old(currentOffset)
    {
      hide Inv, CommittedOk, JournalOk, CoverageOk, Contents;
      var newOffset: int := -1;
      match pos {
        case Start(off) =>
          newOffset := off;
        case End(off) =>
          newOffset := if off < 0 then CheckedSub(g.size, off) else CheckedAdd(g.size, off);
        case Current(off) =>
          newOffset := if off < 0 then CheckedSub(currentOffset, off) else CheckedAdd(currentOffset, off);
      }
      if 0 <= newOffset <= g.size {
        currentOffset := newOffset;
        return Ok(newOffset);
      }
      return Err(EINVAL);
    }

    // Discarding a range.

    /** Zeroes one piece that lies in a single cluster: a whole cluster is dropped, a part is overwritten. */
    method DeallocatePiece(address: nat, count: nat) returns (r: IoResult<()>)
      requires Valid() && 0 < count && address + count <= g.size && ClusterOffset(g, address) + count <= g.clusterSize
      modifies this`l2Cache, this`availClusters, this`unrefClusters, this`ledger, raw, refcounts
      ensures r.Err? ==> r.error == ENOSPC
      ensures r.Ok? ==> Valid() && Disk() == Splice(old(Disk()), address, Zeros(count))
      ensures Discarded(old(raw.journal), raw.journal)
    {
      hide Continued, SamePages, Discarded, Inv, CommittedOk, JournalOk, CoverageOk, Clear, Contents, MapEntry,
           MapIndex, ClusterOffset, VirtualCluster, SameAreas, Quiet, Zeroed, Hosts;
      ghost var disk := Disk();
      if count == g.clusterSize {
        var dropped := DeallocateCluster(address);
        if dropped.Ok? {
          ZeroedIsSplice(g, disk, Disk(), address);
        }
        return dropped;
      }
      // Part of a cluster: its bytes are overwritten where it is mapped.
      ghost var s0, j0 := Snap(), raw.journal;
      ContinuedSelf(j0);
      var located := FileOffsetRead(address);
      ghost var s1 := Snap();
      ghost var j1 := raw.journal;
      DiscardedTrans(j0, j0, j1);
      QuietFacts(g, s0, s1, 0, 0);
      PieceOfDisk(g, s1, ledger, address, count);
      if located.value.None? {
        SpliceSame(disk, address, Zeros(count));
        return Ok(());
      }
      PutData(located.value.value, Zeros(count), address);
      DiscardedTrans(j0, j1, raw.journal);
      return Ok(());
    }

    /** Zeroes `[address..address + length)` as far as it lies on the disk. */
    method DeallocateBytes(address: nat, length: nat) returns (r: IoResult<()>)
      requires Valid()
      modifies this`l2Cache, this`availClusters, this`unrefClusters, this`ledger, raw, refcounts
      ensures r.Err? ==> r.error == ENOSPC
      ensures r.Ok? ==> Valid() && Disk() == ZeroedRange(old(Disk()), address, LimitRangeFile(g.size, address, length))
      ensures Discarded(old(raw.journal), raw.journal)
    {
      hide Continued, Discarded, Valid, Disk, Contents, ClusterOffset;
      ValidBasics();
      var writeCount := LimitRangeFile(g.size, address, length);
      ghost var disk, j0 := Disk(), raw.journal;
      ContinuedSelf(j0);
      DiscardedTrans(j0, j0, j0);
      var nwritten := 0;
      while nwritten < writeCount
        invariant nwritten <= writeCount && Valid() && Discarded(j0, raw.journal)
        invariant Disk() == ZeroedRange(disk, address, nwritten)
      {
        var currAddr := address + nwritten;
        var count := LimitRangeCluster(g, currAddr, writeCount - nwritten);
        ghost var j1 := raw.journal;
        var piece := DeallocatePiece(currAddr, count);
        DiscardedTrans(j0, j1, raw.journal);
        if piece.Err? {
          return Err(piece.error);
        }
        ZeroMore(disk, address, nwritten, count);
        nwritten := nwritten + count;
      }
      return Ok(());
    }

    /** `PunchHole::punch_hole`, in chunks that fit a machine word. */
    method PunchHole(offset: nat, length: nat) returns (r: IoResult<()>)
      requires Valid() && offset <= U64_MAX && length <= U64_MAX
      modifies this`l2Cache, this`availClusters, this`unrefClusters, this`ledger, raw, refcounts
      ensures r.Err? ==> r.error == ENOSPC
      ensures r.Ok? ==> Valid() && Disk() == ZeroedRange(old(Disk()), offset, LimitRangeFile(g.size, offset, length))
      ensures Discarded(old(raw.journal), raw.journal)
    {
      hide Continued, Discarded, Valid, Disk, Contents, ClusterOffset;
      ValidBasics();
      var remaining, at := length, offset;
      ghost var disk, j0 := Disk(), raw.journal;
      ContinuedSelf(j0);
      DiscardedTrans(j0, j0, j0);
      while remaining > 0
        invariant remaining == 0 || (remaining == length && at == offset)
        invariant Valid() && Discarded(j0, raw.journal)
        invariant Disk() == if remaining == 0 then ZeroedRange(disk, offset,
                                                               LimitRangeFile(g.size, offset, length)) else disk
      {
        var chunkLength := Min(remaining, U64_MAX);
        ghost var j1 := raw.journal;
        var done := DeallocateBytes(at, chunkLength);
        DiscardedTrans(j0, j1, raw.journal);
        if done.Err? {
          return Err(done.error);
        }
        remaining := remaining - chunkLength;
        at := at + chunkLength;
      }
      return Ok(());
    }

    /** `WriteZeroesAt::write_zeroes_at`. */
    method WriteZeroesAt(offset: nat, length: nat) returns (r: IoResult<nat>)
      requires Valid() && offset <= U64_MAX && length <= U64_MAX
      modifies this`l2Cache, this`availClusters, this`unrefClusters, this`ledger, raw, refcounts
      ensures r.Err? ==> r.error == ENOSPC
      ensures r.Ok? ==>
                && Valid() && r.value == length
                && Disk() == ZeroedRange(old(Disk()), offset, LimitRangeFile(g.size, offset, length))
      ensures Discarded(old(raw.journal), raw.journal)
    {
      hide Valid, Disk, Contents, ClusterOffset;
      ValidBasics();
      var punched := PunchHole(offset, length);
      if punched.Err? {
        return Err(punched.error);
      }
      return Ok(length);
    }

    // Committing.

    /** Writes every dirty L2 table to its cluster and marks it clean. */
    method SyncL2()
      requires Valid()
      modifies this`l2Cache, raw
      ensures Valid() && Continued(old(raw.journal), raw.journal)
      ensures AllClean(l2Cache) && Quiet(g, old(Snap()), Snap())
    {
      hide Wired, Committed, Inv, CommittedOk, JournalOk, CoverageOk, Clear, SameAreas, Contents, Quiet;
      SoundBasics();
      ghost var s0 := Snap();
      QuietSelf(g, s0, ledger);
      var todo := DirtyKeys(l2Cache);
      while todo != {}
        invariant Valid() && Continued(old(raw.journal), raw.journal)
        invariant todo == DirtyKeys(l2Cache)
        invariant Quiet(g, s0, Snap())
        decreases todo
      {
        ghost var s1 := Snap();
        var i :| i in todo;
        CleanOne(l2Cache, i);
        SyncOneL2(i);
        QuietTrans(g, s0, s1, Snap());
        todo := todo - {i};
      }
      NoneDirty(l2Cache);
    }

    method SyncOneL2(i: nat)
      requires Valid() && i in l2Cache && l2Cache[i].dirty
      modifies this`l2Cache, raw
      ensures Valid() && Continued(old(raw.journal), raw.journal)
      ensures l2Cache == old(l2Cache)[i := old(l2Cache)[i].MarkClean()] && Quiet(g, old(Snap()), Snap())
    {
      hide Inv, CommittedOk, JournalOk, CoverageOk, Clear, SameAreas, Contents, Quiet, CachedOk;
      ghost var s0 := Snap();
      ghost var j0 := raw.journal;
      WriteBackL2(g, s0, ledger, i);
      CachedHome(g.clusterSize, s0.bytes, s0.l2, i);
      L2Role(g, s0, ledger, i);
      WritableAt(s0, ledger, l1Table.vec[i]);
      CleanL2(g, s0, ledger, i);
      raw.WritePointerTable(l1Table.vec[i], l2Cache[i].vec, true);
      SetSize(l2Cache, i, l2Cache[i].MarkClean());
      l2Cache := l2Cache[i := l2Cache[i].MarkClean()];
      assert Snap() == L2Cleaned(g, s0, i);
      QuietAreas(g, s0, Snap());
      CommittedKeeps(g, s0.bytes, ledger.frozen, j0, l1Table, refcounts.refTable,
                     raw.bytes, raw.journal, l1Table, refcounts.refTable);
    }

    method SyncRefblocks()
      requires Valid()
      modifies refcounts`refblockCache, raw
      ensures Valid() && Continued(old(raw.journal), raw.journal)
      ensures AllClean(refcounts.refblockCache) && Quiet(g, old(Snap()), Snap())
    {
      hide Inv, CommittedOk, JournalOk, CoverageOk, Clear, SameAreas, Contents, Quiet, LevelOk, DistinctTops,
           SameBlocks, SameOutside;
      ghost var s0 := Snap();
      ghost var j0 := raw.journal;
      RefcountsValid();
      refcounts.FlushBlocks(raw);
      FlushedRc(g, s0, ledger, Snap());
      QuietAreas(g, s0, Snap());
      CommittedKeeps(g, s0.bytes, ledger.frozen, j0, l1Table, refcounts.refTable,
                     raw.bytes, raw.journal, l1Table, refcounts.refTable);
    }

    /** Commits the L1 table: from here on the file maps the disk as memory does. */
    method SyncL1()
      requires Valid() && AllClean(l2Cache)
      modifies this`l1Table, this`ledger, raw
      ensures Valid() && !l1Table.dirty && l1Table.vec == old(l1Table).vec
      ensures Later(old(raw.journal), raw.journal) && SamePage(old(raw.journal).refBook, raw.journal.refBook)
      ensures WrittenOnce(old(raw.journal), raw.journal, old(raw.journal).mapBook, raw.journal.mapBook,
                          old(l1Table).dirty)
      ensures raw.journal.mapBook.commit.frozen == Referenced(l1Table.vec) && !raw.journal.mapBook.loose
      ensures Disk() == old(Disk()) && ledger.own == old(ledger).own && raw.journal.guest == old(raw.journal).guest
      ensures ledger.frozen.slots == DataSlots(ledger.own)
      ensures SameBlocks(g.clusterSize, old(raw.bytes), old(Snap()).rc, raw.bytes, Snap().rc)
    {
      hide CoverageOk, JournalOk, Inv, CommittedOk, Later, Contents, SameBlocks, AllClean, Referenced, DataSlots;
      WriteL1Table();
      FreezeL1(g, Snap(), ledger, raw.journal.refBook.commit.frozen);
      ledger := ledger.(frozen := Frozen(Referenced(l1Table.vec) + raw.journal.refBook.commit.frozen,
                                         DataSlots(ledger.own)));
    }

    method WriteL1Table()
      requires Valid() && AllClean(l2Cache)
      modifies this`l1Table, raw
      ensures Wired() && Inv(g, Snap(), ledger) && !l1Table.dirty && l1Table.vec == old(l1Table).vec
      ensures CommittedOk(g, raw.bytes, Frozen(Referenced(l1Table.vec) + raw.journal.refBook.commit.frozen,
                                               DataSlots(ledger.own)), raw.journal, l1Table, refcounts.refTable)
      ensures raw.journal.refBook.commit.frozen <= ledger.frozen.blocks && raw.journal.guest == old(raw.journal).guest
      ensures Later(old(raw.journal), raw.journal) && SamePage(old(raw.journal).refBook, raw.journal.refBook)
      ensures WrittenOnce(old(raw.journal), raw.journal, old(raw.journal).mapBook, raw.journal.mapBook,
                          old(l1Table).dirty)
      ensures raw.journal.mapBook.commit.frozen == Referenced(l1Table.vec) && !raw.journal.mapBook.loose
      ensures Disk() == old(Disk())
      ensures SameBlocks(g.clusterSize, old(raw.bytes), old(Snap()).rc, raw.bytes, Snap().rc)
    {
      hide Inv, CommittedOk, BookOk, Kept, CoverageOk, SameAreas, Contents, SameBlocks, SameClusters, LevelOk,
           Clear, Referenced, Splice, FixedClusters, TableAt, ViewOk, SlotsFound, DataSlots, AllClean;
      ghost var s0, j0 := Snap(), raw.journal;
      InvShape(g, s0, ledger);
      CommittedParts(g, s0.bytes, ledger.frozen, j0, l1Table, refcounts.refTable);
      ReferencedInFile(g, s0, ledger);
      if l1Table.dirty {
        TopsArePointers(g, s0, ledger);
        AreasApart(s0, ledger);
        WriteL1(g, s0, ledger);
        SlotsOnDisk(g, L1Written(g, s0), ledger);
        raw.CommitL1(g.l1Offset, l1Table.vec, DataSlots(ledger.own));
        assert Snap() == L1Written(g, s0);
        CommitL1Ok(g, s0.bytes, ledger.frozen, j0, l1Table, refcounts.refTable, raw.bytes, raw.journal);
        l1Table := l1Table.MarkClean();
      } else {
        SameBlocksRefl(g.clusterSize, s0.bytes, s0.rc);
        RestartedOk(g.clusterSize, j0.images, j0.mapBook, l1Table.vec);
        OnDiskL1(g, s0.bytes, ledger.frozen, j0, l1Table, refcounts.refTable);
        SlotsOnDisk(g, s0, ledger);
        DataSame(g.clusterSize, j0.images, j0.mapBook, j0.slots, j0.guest,
                 Restarted(j0.mapBook, |j0.images| - 1, l1Table.vec), DataSlots(ledger.own));
        raw.journal := j0.(mapBook := Restarted(j0.mapBook, |j0.images| - 1, l1Table.vec),
                           slots := DataSlots(ledger.own));
        CommitL1Ok(g, s0.bytes, ledger.frozen, j0, l1Table, refcounts.refTable, raw.bytes, raw.journal);
      }
    }

    /** Commits the refcount table; with that everything in memory is on disk. */
    method SyncRefTable()
      requires Valid() && AllClean(refcounts.refblockCache)
      modifies this`ledger, refcounts`refTable, raw
      ensures Valid() && !refcounts.refTable.dirty && refcounts.refTable.vec == old(refcounts.refTable).vec
      ensures Later(old(raw.journal), raw.journal) && SamePage(old(raw.journal).mapBook, raw.journal.mapBook)
      ensures WrittenOnce(old(raw.journal), raw.journal, old(raw.journal).refBook, raw.journal.refBook,
                          old(refcounts.refTable).dirty)
      ensures raw.journal.refBook.commit.frozen == Referenced(refcounts.refTable.vec) && !raw.journal.refBook.loose
      ensures Disk() == old(Disk()) && ledger.own == old(ledger).own && ledger.frozen.slots == old(ledger).frozen.slots
      ensures raw.journal.guest == old(raw.journal).guest
      ensures SameBlocks(g.clusterSize, old(raw.bytes), old(Snap()).rc, raw.bytes, Snap().rc)
    {
      hide CoverageOk, JournalOk, Inv, CommittedOk, Later, Contents, SameBlocks, AllClean, Referenced;
      WriteRefcountTable();
      FreezeRefTable(g, Snap(), ledger, raw.journal.mapBook.commit.frozen);
      ledger := ledger.(frozen := Frozen(raw.journal.mapBook.commit.frozen + Referenced(refcounts.refTable.vec),
                                         ledger.frozen.slots));
    }

    method WriteRefcountTable()
      requires Valid()
      modifies refcounts`refTable, raw
      ensures Wired() && Inv(g, Snap(), ledger)
      ensures !refcounts.refTable.dirty && refcounts.refTable.vec == old(refcounts.refTable).vec
      ensures CommittedOk(g, raw.bytes, Frozen(raw.journal.mapBook.commit.frozen + Referenced(refcounts.refTable.vec),
                                               ledger.frozen.slots), raw.journal, l1Table, refcounts.refTable)
      ensures raw.journal.mapBook.commit.frozen <= ledger.frozen.blocks && raw.journal.guest == old(raw.journal).guest
      ensures Later(old(raw.journal), raw.journal) && SamePage(old(raw.journal).mapBook, raw.journal.mapBook)
      ensures WrittenOnce(old(raw.journal), raw.journal, old(raw.journal).refBook, raw.journal.refBook,
                          old(refcounts.refTable).dirty)
      ensures raw.journal.refBook.commit.frozen == Referenced(refcounts.refTable.vec) && !raw.journal.refBook.loose
      ensures Disk() == old(Disk())
      ensures SameBlocks(g.clusterSize, old(raw.bytes), old(Snap()).rc, raw.bytes, Snap().rc)
    {
      hide Inv, CommittedOk, BookOk, Kept, CoverageOk, SameAreas, Contents, SameBlocks, SameClusters, LevelOk,
           Clear, Referenced, Splice, FixedClusters, TableAt, ViewOk, Beside;
      ghost var s0, j0 := Snap(), raw.journal;
      InvShape(g, s0, ledger);
      CommittedParts(g, s0.bytes, ledger.frozen, j0, l1Table, refcounts.refTable);
      ReferencedInFile(g, s0, ledger);
      if refcounts.refTable.dirty {
        TopsArePointers(g, s0, ledger);
        AreasApart(s0, ledger);
        WriteRefTable(g, s0, ledger);
        raw.CommitRefTable(g.refTableOffset, refcounts.refTable.vec);
        assert Snap() == RefTableWritten(g, s0);
        CommitRefTableOk(g, s0.bytes, ledger.frozen, j0, l1Table, refcounts.refTable, raw.bytes, raw.journal);
        refcounts.refTable := refcounts.refTable.MarkClean();
      } else {
        SameBlocksRefl(g.clusterSize, s0.bytes, s0.rc);
        RestartedOk(g.clusterSize, j0.images, j0.refBook, refcounts.refTable.vec);
        raw.journal := j0.(refBook := Restarted(j0.refBook, |j0.images| - 1, refcounts.refTable.vec));
        CommitRefTableOk(g, s0.bytes, ledger.frozen, j0, l1Table, refcounts.refTable, raw.bytes, raw.journal);
      }
    }

    /**
     * Writes everything that is dirty: blocks first, then the tables that point to them. Nothing
     * the guest can see changes, and the file alone now describes the same disk.
     */
    method SyncCaches()
      requires Valid()
      modifies this`l1Table, this`l2Cache, this`ledger, raw, refcounts
      ensures Valid() && Disk() == old(Disk()) && Settled(g, Snap())
      ensures Later(old(raw.journal), raw.journal) && !raw.journal.mapBook.loose && !raw.journal.refBook.loose
      ensures Synced(old(raw.journal), raw.journal, old(l1Table).dirty, old(refcounts.refTable).dirty)
      ensures ledger.frozen == Frozen(Referenced(l1Table.vec) + Referenced(refcounts.refTable.vec),
                                      DataSlots(ledger.own))
      ensures raw.journal.guest == old(raw.journal).guest
      ensures CountsSame(g, old(Snap()), Snap())
    {
      hide Continued, Later, Wired, Inv, CommittedOk, JournalOk, CoverageOk, SameAreas, Contents, SameBlocks,
           AllClean, Quiet, Referenced, CountsSame, Synced, WrittenOnce, SamePage;
      SoundBasics();
      ghost var s0, j0 := Snap(), raw.journal;
      ghost var l1, rt := l1Table.dirty, refcounts.refTable.dirty;
      SyncL2();
      ghost var s1, j1 := Snap(), raw.journal;
      QuietFacts(g, s0, s1, 0, 0);
      SyncRefblocks();
      ghost var s2, j2 := Snap(), raw.journal;
      assert l1Table.dirty == l1 && refcounts.refTable.dirty == rt;
      QuietFacts(g, s1, s2, 0, 0);
      QuietTrans(g, s0, s1, s2);
      SyncL1();
      ghost var s3, j3 := Snap(), raw.journal;
      ContinuedTrans(j0, j1, j2);
      LaterTrans(j0, j2, j3);
      SyncRefTable();
      LaterTrans(j0, j3, raw.journal);
      SyncedOk(j0, j2, j3, raw.journal, l1, rt);
      CountsThrough(g, s0, s2, s3, Snap());
      OnDisk(g, raw.bytes, ledger.frozen, raw.journal, l1Table, refcounts.refTable);
    }

    /** `Write::flush`: after the sync, clusters freed before it may be handed out again. */
    method Flush()
      requires Valid()
      modifies this`l1Table, this`l2Cache, this`ledger, this`availClusters, this`unrefClusters,
               raw, refcounts
      ensures Valid() && Disk() == old(Disk()) && Settled(g, Snap())
      ensures Later(old(raw.journal), raw.journal) && !raw.journal.mapBook.loose && !raw.journal.refBook.loose
      ensures Synced(old(raw.journal), raw.journal, old(l1Table).dirty, old(refcounts.refTable).dirty)
      ensures availClusters == old(availClusters) + old(unrefClusters) && unrefClusters == []
      ensures raw.journal.guest == old(raw.journal).guest
      ensures CountsSame(g, old(Snap()), Snap())
    {
      hide Inv, CommittedOk, JournalOk, CoverageOk, SameAreas, Contents, AllClean, CountsSame, Settled;
      SyncCaches();
      ghost var s0, k0 := Snap(), ledger;
      NoUnrefFrozen(g, s0, k0);
      Release(g, s0, k0);
      availClusters := availClusters + unrefClusters;
      unrefClusters := [];
      ledger := k0.(own := ReleasedOwn(|s0.avail|, k0.own));
      assert Snap() == Released(s0);
      ReleasedSame(g, old(Snap()), s0, Snap());
    }

    /** A write of one table touches nothing the other commit protects. */
    lemma AreasApart(s: Image, k: Ledger)
      requires Inv(g, s, k) && raw.clusterSize == g.clusterSize
      requires CommittedOk(g, s.bytes, k.frozen, raw.journal, l1Table, refcounts.refTable)
      ensures Clear(g.clusterSize, raw.journal.refBook.commit, g.l1Offset, 8 * g.l1Len)
      ensures Clear(g.clusterSize, raw.journal.mapBook.commit, g.refTableOffset, 8 * g.refTableLen)
      ensures Beside(g.clusterSize, raw.journal.slots, g.refTableOffset, 8 * g.refTableLen)
    {
      forall a | a in k.frozen.blocks
        ensures g.l1Offset + 8 * g.l1Len <= a || a + g.clusterSize <= g.l1Offset
        ensures g.refTableOffset + 8 * g.refTableLen <= a || a + g.clusterSize <= g.refTableOffset
      {
        FrozenApart(g, s, k, a);
      }
      forall d | d in k.frozen.slots
        ensures g.refTableOffset + 8 * g.refTableLen <= d || d + g.clusterSize <= g.refTableOffset
      {
        assert !Reserved(g, d);
      }
    }
  }

  lemma CommittedParts(g: Geometry, b: seq<byte>, frozen: Frozen, j: Journal, l1: VecCache, rt: VecCache)
    requires CommittedOk(g, b, frozen, j, l1, rt)
    ensures j.mapBook.commit.frozen <= frozen.blocks && j.refBook.commit.frozen <= frozen.blocks
    ensures j.slots == frozen.slots && j.mapBook.mask
    ensures j.mapBook.commit.lo == g.l1Offset && j.mapBook.commit.count == g.l1Len
    ensures j.refBook.commit.lo == g.refTableOffset && j.refBook.commit.count == g.refTableLen
    ensures InFile(g, b)
    ensures !l1.dirty ==> TableAt(b, g.l1Offset, g.l1Len, j.mapBook.mask) == l1.vec
    ensures !rt.dirty ==> TableAt(b, g.refTableOffset, g.refTableLen, j.refBook.mask) == rt.vec
  {
  }

  lemma CommitL1Ok(g: Geometry, b: seq<byte>, frozen: Frozen, j: Journal, l1: VecCache, rt: VecCache,
                   b': seq<byte>, j': Journal)
    requires CommittedOk(g, b, frozen, j, l1, rt)
    requires (InFile(g, b') && DiskL1(g, b') == l1.vec && RefTableArea(g, b') == RefTableArea(g, b))
          || (b' == b && !l1.dirty)
    requires j'.mapBook == j.mapBook.(commit := j'.mapBook.commit, commits := j'.mapBook.commits, loose := false)
    requires j'.mapBook.commit == Commit(j'.mapBook.commit.base, g.l1Offset, g.l1Len, Referenced(l1.vec))
    requires SamePage(j.refBook, j'.refBook)
    ensures CommittedOk(g, b', Frozen(Referenced(l1.vec) + j'.refBook.commit.frozen, j'.slots), j', l1.MarkClean(), rt)
  {
  }

  lemma CommitRefTableOk(g: Geometry, b: seq<byte>, frozen: Frozen, j: Journal, l1: VecCache, rt: VecCache,
                         b': seq<byte>, j': Journal)
    requires CommittedOk(g, b, frozen, j, l1, rt)
    requires (InFile(g, b') && DiskRefTable(g, b') == rt.vec && L1Area(g, b') == L1Area(g, b))
          || (b' == b && !rt.dirty)
    requires j'.refBook == j.refBook.(commit := j'.refBook.commit, commits := j'.refBook.commits, loose := false)
    requires j'.refBook.commit ==
             Commit(j'.refBook.commit.base, g.refTableOffset, g.refTableLen, Referenced(rt.vec))
    requires SamePage(j.mapBook, j'.mapBook)
    ensures CommittedOk(g, b', Frozen(j'.mapBook.commit.frozen + Referenced(rt.vec), j'.slots), j', l1, rt.MarkClean())
  {
  }

  lemma OnDiskL1(g: Geometry, b: seq<byte>, frozen: Frozen, j: Journal, l1: VecCache, rt: VecCache)
    requires CommittedOk(g, b, frozen, j, l1, rt) && !l1.dirty
    ensures InFile(g, b) && DiskL1(g, b) == l1.vec
  {
  }

  lemma OnDisk(g: Geometry, b: seq<byte>, frozen: Frozen, j: Journal, l1: VecCache, rt: VecCache)
    requires CommittedOk(g, b, frozen, j, l1, rt) && !l1.dirty && !rt.dirty
    ensures InFile(g, b) && DiskL1(g, b) == l1.vec && DiskRefTable(g, b) == rt.vec
    ensures frozen == Frozen(j.mapBook.commit.frozen + j.refBook.commit.frozen, j.slots)
  {
  }

  /** Every cluster has the count it had. */
  ghost predicate CountsSame(g: Geometry, s: Image, s': Image)
    requires 2 <= g.clusterSize
  {
    forall a: nat :: Count(g, s'.bytes, s'.rc, a) == Count(g, s.bytes, s.rc, a)
  }

  lemma CountsThrough(g: Geometry, s0: Image, s2: Image, s3: Image, s4: Image)
    requires 8 <= g.clusterSize && Quiet(g, s0, s2)
    requires SameBlocks(g.clusterSize, s2.bytes, s2.rc, s3.bytes, s3.rc)
    requires SameBlocks(g.clusterSize, s3.bytes, s3.rc, s4.bytes, s4.rc)
    ensures CountsSame(g, s0, s4)
  {
    forall a: nat
      ensures Count(g, s4.bytes, s4.rc, a) == Count(g, s0.bytes, s0.rc, a)
    {
      SameCount(g, s0.bytes, s0.rc, s2.bytes, s2.rc, a);
      SameCount(g, s2.bytes, s2.rc, s3.bytes, s3.rc, a);
      SameCount(g, s3.bytes, s3.rc, s4.bytes, s4.rc, a);
    }
  }

  lemma ReleasedSame(g: Geometry, s: Image, s0: Image, s': Image)
    requires 2 <= g.clusterSize && CountsSame(g, s, s0) && Settled(g, s0)
    requires s' == s0.(avail := s'.avail, unref := s'.unref)
    ensures CountsSame(g, s, s') && Settled(g, s')
  {
  }

  datatype SeekFrom = Start(off: nat) | End(delta: int) | Current(delta: int)

  const I64_MIN: int := -0x8000_0000_0000_0000

  /** `a - |off|` for a negative `off`, or -1 when that is not representable. */
  function CheckedSub(a: nat, off: int): int
    requires off < 0
  {
    if off == I64_MIN || a + off < 0 then -1 else a + off
  }

  function CheckedAdd(a: nat, off: nat): int {
    if a + off > U64_MAX then -1 else a + off
  }

  function Moved(a: nat, d: int): int {
    if d == I64_MIN || (d >= 0 && a + d > U64_MAX) then -1 else a + d
  }

  /** The position a seek asks for; -1 where the arithmetic fails. */
  function SeekTarget(pos: SeekFrom, size: nat, current: nat): int {
    match pos
    case Start(off) => off
    case End(d) => Moved(size, d)
    case Current(d) => Moved(current, d)
  }

  function ZeroedRange(disk: seq<byte>, address: nat, n: nat): seq<byte>
    requires n > 0 ==> address + n <= |disk|
  {
    if n == 0 then disk else Splice(disk, address, Zeros(n))
  }

  lemma ZeroMore(disk: seq<byte>, address: nat, m: nat, n: nat)
    requires 0 < n && address + m + n <= |disk|
    ensures Splice(ZeroedRange(disk, address, m), address + m, Zeros(n)) == ZeroedRange(disk, address, m + n)
  {
    assert Zeros(m + n) == Zeros(m) + Zeros(n);
    if m > 0 {
      SpliceMore(disk, address, Zeros(m + n), m, n);
      assert Zeros(m + n)[..m] == Zeros(m) && Zeros(m + n)[m..] == Zeros(n);
    }
  }

  lemma SpliceSame(b: seq<byte>, off: nat, d: seq<byte>)
    requires off + |d| <= |b| && b[off..off + |d|] == d
    ensures Splice(b, off, d) == b
  {
  }

  /** Dropping a whole cluster of the disk is overwriting it with zeros. */
  lemma ZeroedIsSplice(g: Geometry, d: seq<byte>, d': seq<byte>, v: nat)
    requires 0 < g.clusterSize && ClusterOffset(g, v) + g.clusterSize <= g.clusterSize && v + g.clusterSize <= |d|
    requires Zeroed(g, d, d', VirtualCluster(g, v))
    ensures d' == Splice(d, v, Zeros(g.clusterSize))
  {
    forall u: nat | u < |d|
      ensures d'[u] == Splice(d, v, Zeros(g.clusterSize))[u]
    {
      SpliceAt(d, v, Zeros(g.clusterSize), u);
      SameCluster(g, v, g.clusterSize, u);
    }
  }

  lemma SpliceNothing(b: seq<byte>, off: nat)
    requires off <= |b|
    ensures Splice(b, off, []) == b
  {
  }

  lemma SpliceMore(b: seq<byte>, off: nat, d: seq<byte>, m: nat, n: nat)
    requires m + n <= |d| && off + m + n <= |b|
    ensures d[..m + n] == d[..m] + d[m..m + n]
    ensures Splice(Splice(b, off, d[..m]), off + m, d[m..m + n]) == Splice(b, off, d[..m + n])
  {
  }

  /** A buffer whose first `n` bytes were read from the disk. */
  function Filled(disk: seq<byte>, address: nat, before: seq<byte>, n: nat): seq<byte>
    requires address + n <= |disk| && n <= |before|
  {
    disk[address..address + n] + before[n..]
  }

  lemma FillMore(disk: seq<byte>, address: nat, before: seq<byte>, m: nat, n: nat)
    requires address + m + n <= |disk| && m + n <= |before|
    ensures Splice(Filled(disk, address, before, m), m, disk[address + m..address + m + n]) ==
            Filled(disk, address, before, m + n)
  {
  }

  lemma FillNone(disk: seq<byte>, address: nat, before: seq<byte>)
    requires address <= |disk|
    ensures Filled(disk, address, before, 0) == before
  {
  }

  lemma FillDone(disk: seq<byte>, address: nat, before: seq<byte>, n: nat)
    requires address + n <= |disk| && n <= |before|
    ensures |Filled(disk, address, before, n)| == |before|
    ensures Filled(disk, address, before, n)[..n] == disk[address..address + n]
    ensures Filled(disk, address, before, n)[n..] == before[n..]
  {
  }

  method CopyInto(buf: array<byte>, at: nat, d: seq<byte>)
    requires at + |d| <= buf.Length
    modifies buf
    ensures buf[..] == Splice(old(buf[..]), at, d)
  {
    forall k | 0 <= k < |d| {
      buf[at + k] := d[k];
    }
  }
}
