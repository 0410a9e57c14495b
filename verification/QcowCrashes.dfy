/**
 * What the file alone holds after each single write to it: the disk that would be found if the machine
 * stopped there and the image was opened again.
 */
module QcowCrashes {
  import opened HostBytes
  import opened PointerTables
  import opened CachedTables
  import opened Journals
  import opened QcowImage
  import opened QcowCommit
  import opened QcowFiles

  /** The byte at guest address `v` that the tables in the file lead to. */
  function DiskByte(g: Geometry, b: seq<byte>, v: nat): byte
    requires 8 <= g.clusterSize
  {
    var (i, j) := MapIndex(g, VirtualCluster(g, v));
    SlotByte(g.clusterSize, g.l1Offset, g.l1Len, true, b, i, j, ClusterOffset(g, v))
  }

  /** That is what the image shows when it is opened. */
  lemma DiskByteShown(g: Geometry, b: seq<byte>, v: nat)
    requires 8 <= g.clusterSize && InFile(g, b) && v < g.size
    ensures DiskByte(g, b, v) == Contents(g, b, Opened(g, b).l2)[v]
  {
    hide Entry, DecodePointers, MapIndex, VirtualCluster, ClusterOffset;
  }

  /** A flushed file shows the disk as it is. */
  lemma SettledByte(g: Geometry, s: Image, k: Ledger, v: nat)
    requires Inv(g, s, k) && Settled(g, s) && v < g.size
    ensures 8 <= g.clusterSize && DiskByte(g, s.bytes, v) == Contents(g, s.bytes, s.l2)[v]
  {
    hide Entry, DiskSlot, MapIndex, VirtualCluster, ClusterOffset, LevelOk, OwnedOk, LinkedOk, CountedOk, FrozenOk,
         DiskL1, DiskRefTable;
    var (i, j) := MapIndex(g, VirtualCluster(g, v));
    SlotIsEntry(g, s, i, j);
  }

  /** One write changes what is found only at bytes that are guest data being written. */
  lemma StepByte(q: QcowFile, n: nat, v: nat)
    requires q.Valid() && 0 < n < |q.raw.journal.images|
    requires n !in q.raw.journal.mapBook.commits && n !in q.raw.journal.mapBook.loosened
    ensures 8 <= q.g.clusterSize
    ensures var j := q.raw.journal;
            var x := DiskByte(q.g, j.images[n], v);
            x == DiskByte(q.g, j.images[n - 1], v) || (n in j.guest && Puts(q.g, j.guest[n], v, x))
  {
    hide Inv, CoverageOk, BookOk, SlotsFound, SlotByte, MapIndex, VirtualCluster;
    var g, j := q.g, q.raw.journal;
    var (i, e) := MapIndex(g, VirtualCluster(g, v));
    assert Unseen(g.clusterSize, j.images, j.mapBook, j.guest, n);
    assert ClusterOffset(g, v) < g.clusterSize;
  }

  /** Between these images there is neither a write of the table, nor a discard, nor guest data. */
  ghost predicate Idle(j: Journal, m: nat, n: nat) {
    forall p :: m < p <= n ==> p !in j.mapBook.commits && p !in j.mapBook.loosened && p !in j.guest
  }

  lemma {:induction false} IdleByte(q: QcowFile, m: nat, n: nat, v: nat)
    requires q.Valid() && m <= n < |q.raw.journal.images| && Idle(q.raw.journal, m, n)
    ensures 8 <= q.g.clusterSize
    ensures DiskByte(q.g, q.raw.journal.images[n], v) == DiskByte(q.g, q.raw.journal.images[m], v)
    decreases n
  {
    hide QcowFile.Valid, DiskByte, Puts;
    q.ValidBasics();
    if m < n {
      StepByte(q, n, v);
      IdleByte(q, m, n - 1, v);
    }
  }

  /** Every number the books keep is that of an image there is. */
  lemma NumbersBelow(cs: nat, b: seq<byte>, j: Journal, n: nat)
    requires JournalOk(cs, b, j) && |j.images| <= n
    ensures j.images != [] && n !in j.mapBook.commits && n !in j.mapBook.loosened && n !in j.guest
  {
    hide Kept, Step, SlotsFound, Unseen, TableWrite, LooseAt;
  }

  /** Image `n` of a write shows at `v` what was found before it, or what it puts there. */
  lemma {:induction false} WriteByte(q: QcowFile, b: seq<byte>, j: Journal, lo: nat, data: seq<byte>, n: nat, v: nat)
    requires q.Valid() && JournalOk(q.g.clusterSize, b, j) && !j.mapBook.loose && SamePages(j, q.raw.journal)
    requires 8 <= q.g.clusterSize && WroteOnly(q.g, j, q.raw.journal, lo, data)
    requires |j.images| <= n + 1 && n < |q.raw.journal.images|
    ensures j.images != []
    ensures var x := DiskByte(q.g, q.raw.journal.images[n], v);
            x == DiskByte(q.g, j.images[|j.images| - 1], v) || (lo <= v < lo + |data| && x == data[v - lo])
    decreases n
  {
    hide QcowFile.Valid, JournalOk, DiskByte, Puts;
    NumbersBelow(q.g.clusterSize, b, j, |j.images|);
    if n >= |j.images| {
      NumbersBelow(q.g.clusterSize, b, j, n);
      StepByte(q, n, v);
      WriteByte(q, b, j, lo, data, n - 1, v);
    }
  }

  /** Image `n` of a flush shows at `v` what was found before it, or the disk as it is. */
  lemma FlushByte(q: QcowFile, b: seq<byte>, j: Journal, l1: bool, rt: bool, n: nat, v: nat)
    requires q.Valid() && JournalOk(q.g.clusterSize, b, j) && !j.mapBook.loose
    requires Later(j, q.raw.journal) && Synced(j, q.raw.journal, l1, rt) && q.raw.journal.guest == j.guest
    requires Settled(q.g, q.Snap()) && |j.images| <= n + 1 && n < |q.raw.journal.images| && v < q.g.size
    ensures 8 <= q.g.clusterSize && j.images != [] && |q.Disk()| == q.g.size
    ensures var x := DiskByte(q.g, q.raw.journal.images[n], v);
            x == DiskByte(q.g, j.images[|j.images| - 1], v) || x == q.Disk()[v]
  {
    hide QcowFile.Valid, JournalOk, Settled, DiskByte, QcowFile.Disk;
    var j' := q.raw.journal;
    q.ValidBasics();
    NumbersBelow(q.g.clusterSize, b, j, |j.images|);
    var last, c := |j'.images| - 1, |j'.images| - (if rt then 2 else 1);
    forall p | |j.images| <= p
      ensures p !in j.mapBook.commits && p !in j.mapBook.loosened && p !in j.guest
    {
      NumbersBelow(q.g.clusterSize, b, j, p);
    }
    if l1 && c <= n {
      IdleByte(q, n, last, v);
      FinalByte(q, v);
    } else {
      IdleByte(q, |j.images| - 1, n, v);
    }
  }

  /**
   * Every image written from journal `j` to `j'` shows at every address what the file showed before, or what
   * the disk held before (`d`) or afterwards (`d'`).
   */
  ghost predicate Recent(g: Geometry, j: Journal, j': Journal, d: seq<byte>, d': seq<byte>) {
    && 8 <= g.clusterSize && j.images != [] && |d| == |d'| == g.size
    && forall n, v :: |j.images| <= n < |j'.images| && 0 <= v < g.size ==>
         var x := DiskByte(g, j'.images[n], v);
         x == DiskByte(g, j.images[|j.images| - 1], v) || x == d[v] || x == d'[v]
  }

  lemma WriteRecent(q: QcowFile, b: seq<byte>, j: Journal, lo: nat, data: seq<byte>, d: seq<byte>)
    requires q.Valid() && JournalOk(q.g.clusterSize, b, j) && !j.mapBook.loose && SamePages(j, q.raw.journal)
    requires 8 <= q.g.clusterSize && WroteOnly(q.g, j, q.raw.journal, lo, data)
    requires |d| == q.g.size && lo + |data| <= |d| && q.Disk() == Splice(d, lo, data)
    ensures Recent(q.g, j, q.raw.journal, d, q.Disk())
  {
    hide QcowFile.Valid, QcowFile.Disk, JournalOk, DiskByte, SamePages, WroteOnly, Splice;
    NumbersBelow(q.g.clusterSize, b, j, |j.images|);
    forall n, v | |j.images| <= n < |q.raw.journal.images| && 0 <= v < q.g.size
      ensures var x := DiskByte(q.g, q.raw.journal.images[n], v);
              x == DiskByte(q.g, j.images[|j.images| - 1], v) || x == q.Disk()[v]
    {
      WriteByte(q, b, j, lo, data, n, v);
      SpliceAt(d, lo, data, v);
    }
  }

  lemma FlushRecent(q: QcowFile, b: seq<byte>, j: Journal, l1: bool, rt: bool)
    requires q.Valid() && JournalOk(q.g.clusterSize, b, j) && !j.mapBook.loose
    requires Later(j, q.raw.journal) && Synced(j, q.raw.journal, l1, rt) && q.raw.journal.guest == j.guest
    requires Settled(q.g, q.Snap())
    ensures Recent(q.g, j, q.raw.journal, q.Disk(), q.Disk())
  {
    hide QcowFile.Valid, QcowFile.Disk, JournalOk, DiskByte, Later, Synced, Settled;
    q.ValidBasics();
    NumbersBelow(q.g.clusterSize, b, j, |j.images|);
    forall n, v | |j.images| <= n < |q.raw.journal.images| && 0 <= v < q.g.size
      ensures var x := DiskByte(q.g, q.raw.journal.images[n], v);
              x == DiskByte(q.g, j.images[|j.images| - 1], v) || x == q.Disk()[v]
    {
      FlushByte(q, b, j, l1, rt, n, v);
    }
  }

  lemma FinalByte(q: QcowFile, v: nat)
    requires q.Valid() && Settled(q.g, q.Snap()) && v < q.g.size
    ensures 8 <= q.g.clusterSize && q.raw.journal.images != [] && |q.Disk()| == q.g.size
    ensures DiskByte(q.g, q.raw.journal.images[|q.raw.journal.images| - 1], v) == q.Disk()[v]
  {
    hide Inv, CoverageOk, BookOk, ViewOk, DiskByte, Settled;
    SettledByte(q.g, q.Snap(), q.ledger, v);
  }
}
