/**
 * The history of the host file: every image it has had, and what the last writes of the L1 table
 * and of the refcount table protect from being overwritten.
 */
module Journals {
  import opened HostBytes
  import opened PointerTables
  import opened Wrappers
  import opened CachedTables

  /**
   * What a commit stands for: from file image number `base` on, the table of `count` pointers at
   * `lo` and the `frozen` clusters its entries point to have not changed.
   */
  datatype Commit = Commit(base: nat, lo: nat, count: nat, frozen: set<nat>) {
    function Hi(): nat {
      lo + 8 * count
    }
  }

  ghost predicate Protected(cs: nat, c: Commit, b0: seq<byte>, b: seq<byte>) {
    && |b0| <= |b| && c.Hi() <= |b0| && b[c.lo..c.Hi()] == b0[c.lo..c.Hi()]
    && (forall a :: a in c.frozen ==> a + cs <= |b0| && Cluster(cs, b, a) == Cluster(cs, b0, a))
  }

  /** Every file image since the commit keeps what the commit protects. */
  ghost predicate Kept(cs: nat, images: seq<seq<byte>>, c: Commit) {
    && c.base < |images|
    && (forall n :: c.base <= n < |images| ==> Protected(cs, c, images[c.base], images[n]))
  }

  /** The range `[off..off+n)` touches nothing the commit protects. */
  ghost predicate Clear(cs: nat, c: Commit, off: nat, n: nat) {
    && (off + n <= c.lo || c.Hi() <= off)
    && (forall a :: a in c.frozen ==> off + n <= a || a + cs <= off)
  }

  lemma ProtectedSplice(cs: nat, c: Commit, b0: seq<byte>, b: seq<byte>, off: nat, d: seq<byte>)
    requires Protected(cs, c, b0, b) && Clear(cs, c, off, |d|) && off + |d| <= |b|
    ensures Protected(cs, c, b0, Splice(b, off, d))
  {
    SpliceApart(b, off, d, c.lo, c.Hi());
    forall a | a in c.frozen
      ensures a + cs <= |b0| && Cluster(cs, Splice(b, off, d), a) == Cluster(cs, b0, a)
    {
      SpliceApart(b, off, d, a, a + cs);
    }
  }

  lemma ProtectedGrow(cs: nat, c: Commit, b0: seq<byte>, b: seq<byte>, z: seq<byte>)
    requires Protected(cs, c, b0, b)
    ensures Protected(cs, c, b0, b + z)
  {
    assert (b + z)[c.lo..c.Hi()] == b[c.lo..c.Hi()];
    forall a | a in c.frozen
      ensures a + cs <= |b0| && Cluster(cs, b + z, a) == Cluster(cs, b0, a)
    {
      assert Cluster(cs, b + z, a) == Cluster(cs, b, a);
    }
  }

  lemma KeptAppend(cs: nat, images: seq<seq<byte>>, c: Commit, b: seq<byte>)
    requires Kept(cs, images, c) && Protected(cs, c, images[c.base], b)
    ensures Kept(cs, images + [b], c)
  {
  }

  /** The pointer table a reader of `b` finds at `lo`. */
  function TableAt(b: seq<byte>, lo: nat, n: nat, mask: bool): seq<nat>
    requires lo + 8 * n <= |b|
  {
    DecodePointers(b[lo..lo + 8 * n], n, mask)
  }

  /** A reader of `b'` finds the same table as a reader of `b`, and the same blocks behind it. */
  ghost predicate SameMapping(cs: nat, lo: nat, n: nat, mask: bool, b: seq<byte>, b': seq<byte>) {
    && lo + 8 * n <= |b| && lo + 8 * n <= |b'|
    && TableAt(b', lo, n, mask) == TableAt(b, lo, n, mask)
    && (forall a :: a in Referenced(TableAt(b, lo, n, mask)) ==>
          a + cs <= |b| && a + cs <= |b'| && Cluster(cs, b', a) == Cluster(cs, b, a))
  }

  /**
   * What is known about one table of the file. `commits` numbers the images that a write of the
   * table produced, `thaws` the images that came next when a discard edited a block the table on disk
   * points to. From then until the next write of the table the book is `loose`: the edited block may
   * be written in place. `loosened` numbers the images written in that situation.
   */
  datatype Book = Book(
    commit: Commit, mask: bool, commits: set<nat>, thaws: set<nat>, loosened: set<nat>, loose: bool)

  /** Guest data was written: `data`, from byte `at` on, to the data cluster of entry `j` of L2 table `i`. */
  datatype Touch = Touch(i: nat, j: nat, at: nat, data: seq<byte>) {
    predicate Hits(i': nat, j': nat, o: nat) {
      i' == i && j' == j && at <= o < at + |data|
    }

    /** The byte it leaves at `o` is `x`. */
    predicate Leaves(i': nat, j': nat, o: nat, x: byte) {
      Hits(i', j', o) && x == data[o - at]
    }
  }

  /**
   * The file's images, the current one last, and the books of the L1 and the refcount table. `slots` are
   * the data clusters the tables on disk may point to, each with the one entry that does, and `guest` says
   * which images a write of guest data produced.
   */
  datatype Journal = Journal(
    images: seq<seq<byte>>, mapBook: Book, refBook: Book, slots: map<nat, (nat, nat)>, guest: map<nat, Touch>)

  /** Between image `n - 1` and image `n` a reader following the table sees no change. */
  ghost predicate Step(cs: nat, images: seq<seq<byte>>, k: Book, n: nat)
    requires 0 < n < |images|
  {
    SameMapping(cs, k.commit.lo, k.commit.count, k.mask, images[n - 1], images[n])
  }

  /** `b'` is `b` with some table of `count` pointers written at `lo`, and nothing else. */
  ghost predicate TableWrite(lo: nat, count: nat, b: seq<byte>, b': seq<byte>) {
    exists t: seq<nat> :: |t| == count && lo + 8 * count <= |b| && b' == Splice(b, lo, EncodePointers(t, false))
  }

  /** A discard came before image `n`, with no write of the table in between. */
  ghost predicate LooseAt(k: Book, n: nat) {
    exists m :: m in k.thaws && m <= n && forall c :: c in k.commits ==> c < m || n < c
  }

  /** The image numbers the book keeps are what it says they are. */
  ghost predicate HistoryOk(images: seq<seq<byte>>, k: Book) {
    && (forall n :: n in k.commits ==>
          0 < n < |images| && TableWrite(k.commit.lo, k.commit.count, images[n - 1], images[n]))
    && (forall m :: m in k.thaws ==> m <= |images|)
    && (forall n :: n in k.loosened ==> 0 < n < |images| && LooseAt(k, n))
    && (k.loose ==> LooseAt(k, |images|))
  }

  ghost predicate BookOk(cs: nat, images: seq<seq<byte>>, k: Book) {
    && Kept(cs, images, k.commit)
    && images != [] && k.commit.Hi() <= |images[|images| - 1]|
    && (!k.loose ==>
          k.commit.frozen == Referenced(TableAt(images[|images| - 1], k.commit.lo, k.commit.count, k.mask)))
    && (forall n :: 0 < n < |images| ==> n in k.commits || n in k.loosened || Step(cs, images, k, n))
    && HistoryOk(images, k)
    && (forall n :: 0 <= n < |images| ==> k.commit.Hi() <= |images[n]|)
  }

  ghost predicate JournalOk(cs: nat, b: seq<byte>, j: Journal) {
    && j.images != [] && j.images[|j.images| - 1] == b
    && BookOk(cs, j.images, j.mapBook) && BookOk(cs, j.images, j.refBook)
    && ViewOk(cs, j.images, j.mapBook, j.slots, j.guest)
  }

  // What a reader of the file alone finds behind the L1 table: the data itself.

  /** The data cluster entry `j` of L2 table `i` points to, or 0. */
  function DiskSlot(cs: nat, lo: nat, n: nat, mask: bool, b: seq<byte>, i: nat, j: nat): nat {
    if lo + 8 * n <= |b| then Entry(cs, b, Level(Pointers, TableAt(b, lo, n, mask), map[]), i, j) else 0
  }

  /** Byte `o` of that cluster. */
  function SlotByte(cs: nat, lo: nat, n: nat, mask: bool, b: seq<byte>, i: nat, j: nat, o: nat): byte {
    ByteIn(b, DiskSlot(cs, lo, n, mask, b, i, j), o)
  }

  ghost predicate SlotsFound(cs: nat, lo: nat, n: nat, mask: bool, b: seq<byte>, slots: map<nat, (nat, nat)>) {
    forall i: nat, j: nat :: var d := DiskSlot(cs, lo, n, mask, b, i, j); d != 0 ==> d in slots && slots[d] == (i, j)
  }

  /** From one image to the next a reader finds the same data, except for what the guest wrote. */
  ghost predicate DataStep(cs: nat, lo: nat, n: nat, mask: bool, b: seq<byte>, b': seq<byte>, t: Option<Touch>) {
    forall i: nat, j: nat, o: nat :: o < cs ==>
      var x := SlotByte(cs, lo, n, mask, b', i, j, o);
      x == SlotByte(cs, lo, n, mask, b, i, j, o) || (t.Some? && t.value.Leaves(i, j, o, x))
  }

  function TouchAt(guest: map<nat, Touch>, n: nat): Option<Touch> {
    if n in guest then Some(guest[n]) else None
  }

  ghost predicate Unseen(cs: nat, images: seq<seq<byte>>, k: Book, guest: map<nat, Touch>, n: nat)
    requires 0 < n < |images|
  {
    DataStep(cs, k.commit.lo, k.commit.count, k.mask, images[n - 1], images[n], TouchAt(guest, n))
  }

  ghost predicate ViewOk(cs: nat, images: seq<seq<byte>>, k: Book, slots: map<nat, (nat, nat)>, guest: map<nat, Touch>)
    requires images != []
  {
    && (!k.loose ==> SlotsFound(cs, k.commit.lo, k.commit.count, k.mask, images[|images| - 1], slots))
    && (forall d :: d in slots ==> d + cs <= |images[|images| - 1]|)
    && (forall n :: 0 < n < |images| ==> n in k.commits || n in k.loosened || Unseen(cs, images, k, guest, n))
    && (forall n :: n in guest ==> n < |images|)
  }

  /** The bytes of these clusters are the same in both images, except for what the guest wrote. */
  ghost predicate Explained(cs: nat, slots: map<nat, (nat, nat)>, b: seq<byte>, b': seq<byte>, t: Option<Touch>) {
    forall d, o: nat :: d in slots && o < cs ==>
      var x := ByteIn(b', d, o);
      x == ByteIn(b, d, o) || (t.Some? && t.value.Leaves(slots[d].0, slots[d].1, o, x))
  }

  lemma SameSlot(cs: nat, lo: nat, n: nat, mask: bool, b: seq<byte>, b': seq<byte>, i: nat, j: nat)
    requires SameMapping(cs, lo, n, mask, b, b')
    ensures DiskSlot(cs, lo, n, mask, b', i, j) == DiskSlot(cs, lo, n, mask, b, i, j)
  {
    hide SameMapping, TableAt, Entry;
    MappingEntries(cs, Pointers, lo, n, mask, b, b', i, j);
    MappingInFile(cs, lo, n, mask, b, b');
  }

  lemma MappingInFile(cs: nat, lo: nat, n: nat, mask: bool, b: seq<byte>, b': seq<byte>)
    requires SameMapping(cs, lo, n, mask, b, b')
    ensures lo + 8 * n <= |b| && lo + 8 * n <= |b'|
  {
  }

  lemma ExplainedStep(cs: nat, lo: nat, n: nat, mask: bool, slots: map<nat, (nat, nat)>, b: seq<byte>, b': seq<byte>,
                      t: Option<Touch>)
    requires SameMapping(cs, lo, n, mask, b, b') && SlotsFound(cs, lo, n, mask, b, slots)
    requires Explained(cs, slots, b, b', t)
    ensures DataStep(cs, lo, n, mask, b, b', t) && SlotsFound(cs, lo, n, mask, b', slots)
  {
    hide SameMapping, DiskSlot;
    forall i: nat, j: nat
      ensures DiskSlot(cs, lo, n, mask, b', i, j) == DiskSlot(cs, lo, n, mask, b, i, j)
    {
      SameSlot(cs, lo, n, mask, b, b', i, j);
    }
  }

  /** Image `n` was written, by the guest if there is a touch. */
  function Marked(guest: map<nat, Touch>, n: nat, t: Option<Touch>): map<nat, Touch> {
    if t.Some? then guest[n := t.value] else guest
  }

  lemma UnseenAppend(cs: nat, images: seq<seq<byte>>, k: Book, slots: map<nat, (nat, nat)>, guest: map<nat, Touch>,
                     b: seq<byte>, k': Book, t: Option<Touch>)
    requires images != [] && ViewOk(cs, images, k, slots, guest)
    requires k'.commit.lo == k.commit.lo && k'.commit.count == k.commit.count && k'.mask == k.mask
    requires k.commits <= k'.commits && k.loosened <= k'.loosened
    requires |images| in k'.commits || |images| in k'.loosened
          || DataStep(cs, k.commit.lo, k.commit.count, k.mask, images[|images| - 1], b, t)
    ensures forall n :: 0 < n < |images + [b]| ==>
              n in k'.commits || n in k'.loosened || Unseen(cs, images + [b], k', Marked(guest, |images|, t), n)
  {
    hide SlotsFound, DataStep;
    forall n | 0 < n < |images + [b]|
      ensures n in k'.commits || n in k'.loosened || Unseen(cs, images + [b], k', Marked(guest, |images|, t), n)
    {
      if n < |images| {
        assert Unseen(cs, images, k, guest, n) ==> Unseen(cs, images + [b], k', Marked(guest, |images|, t), n);
      }
    }
  }

  /** A write that explains itself, with the table and its blocks as they were. */
  lemma DataAppend(cs: nat, images: seq<seq<byte>>, k: Book, slots: map<nat, (nat, nat)>, guest: map<nat, Touch>,
                   b: seq<byte>, t: Option<Touch>)
    requires BookOk(cs, images, k) && ViewOk(cs, images, k, slots, guest)
    requires BookOk(cs, images + [b], Noted(k, |images|)) && |images[|images| - 1]| <= |b|
    requires Explained(cs, slots, images[|images| - 1], b, t)
    ensures ViewOk(cs, images + [b], Noted(k, |images|), slots, Marked(guest, |images|, t))
  {
    hide SlotsFound, DataStep, Explained, Kept, SameMapping;
    var images', k' := images + [b], Noted(k, |images|);
    if !k.loose {
      assert Step(cs, images', k', |images|);
      ExplainedStep(cs, k.commit.lo, k.commit.count, k.mask, slots, images[|images| - 1], b, t);
    }
    UnseenAppend(cs, images, k, slots, guest, b, k', t);
  }

  /** After a write of the table itself other clusters are found. */
  lemma DataRecorded(cs: nat, images: seq<seq<byte>>, k: Book, slots: map<nat, (nat, nat)>, guest: map<nat, Touch>,
                     b: seq<byte>, top: seq<nat>, slots': map<nat, (nat, nat)>)
    requires images != [] && ViewOk(cs, images, k, slots, guest)
    requires SlotsFound(cs, k.commit.lo, k.commit.count, k.mask, b, slots')
    requires forall d :: d in slots' ==> d + cs <= |b|
    ensures ViewOk(cs, images + [b], Recorded(k, |images|, top), slots', guest)
  {
    hide SlotsFound, DataStep;
    UnseenAppend(cs, images, k, slots, guest, b, Recorded(k, |images|, top), None);
  }

  /** The books say the same about the images there are. */
  lemma DataSame(cs: nat, images: seq<seq<byte>>, k: Book, slots: map<nat, (nat, nat)>, guest: map<nat, Touch>,
                 k': Book, slots': map<nat, (nat, nat)>)
    requires images != [] && ViewOk(cs, images, k, slots, guest)
    requires k'.commit.lo == k.commit.lo && k'.commit.count == k.commit.count && k'.mask == k.mask
    requires k'.commits == k.commits && k'.loosened == k.loosened
    requires !k'.loose ==> SlotsFound(cs, k.commit.lo, k.commit.count, k.mask, images[|images| - 1], slots')
    requires forall d :: d in slots' ==> d + cs <= |images[|images| - 1]|
    ensures ViewOk(cs, images, k', slots', guest)
  {
    hide SlotsFound, DataStep;
    forall n | 0 < n < |images|
      ensures n in k'.commits || n in k'.loosened || Unseen(cs, images, k', guest, n)
    {
      assert Unseen(cs, images, k, guest, n) ==> Unseen(cs, images, k', guest, n);
    }
  }

  /** The range `[off..off + n)` lies apart from all these clusters. */
  ghost predicate Beside(cs: nat, slots: map<nat, (nat, nat)>, off: nat, n: nat) {
    forall d :: d in slots ==> off + n <= d || d + cs <= off
  }

  lemma SpliceBeside(cs: nat, slots: map<nat, (nat, nat)>, b: seq<byte>, off: nat, data: seq<byte>)
    requires Beside(cs, slots, off, |data|) && off + |data| <= |b|
    ensures Explained(cs, slots, b, Splice(b, off, data), None)
  {
    forall d, o: nat | d in slots && o < cs
      ensures ByteIn(Splice(b, off, data), d, o) == ByteIn(b, d, o)
    {
      if d + o < |b| {
        SpliceAt(b, off, data, d + o);
      }
    }
  }

  lemma GrowBeside(cs: nat, slots: map<nat, (nat, nat)>, b: seq<byte>, z: seq<byte>)
    requires forall d :: d in slots ==> d + cs <= |b|
    ensures Explained(cs, slots, b, b + z, None)
  {
  }

  /** Guest data goes to the cluster at `a`, which is in the touch's slot if it is in any. */
  ghost predicate Hosts(cs: nat, slots: map<nat, (nat, nat)>, a: nat, t: Touch) {
    && t.at + |t.data| <= cs
    && (a in slots ==> slots[a] == (t.i, t.j))
    && (forall d :: d in slots && d != a ==> a + cs <= d || d + cs <= a)
  }

  lemma SpliceHosted(cs: nat, slots: map<nat, (nat, nat)>, b: seq<byte>, a: nat, t: Touch)
    requires Hosts(cs, slots, a, t) && a + t.at + |t.data| <= |b| && 0 < a
    ensures Explained(cs, slots, b, Splice(b, a + t.at, t.data), Some(t))
  {
    var off := a + t.at;
    forall d, o: nat | d in slots && o < cs
      ensures var x := ByteIn(Splice(b, off, t.data), d, o);
              x == ByteIn(b, d, o) || t.Leaves(slots[d].0, slots[d].1, o, x)
    {
      if d + o < |b| {
        SpliceAt(b, off, t.data, d + o);
      }
    }
  }

  /** A reader that follows the table finds the same entries. */
  lemma MappingEntries(cs: nat, kind: Kind, lo: nat, n: nat, mask: bool, b: seq<byte>, b': seq<byte>, i: nat, j: nat)
    requires SameMapping(cs, lo, n, mask, b, b')
    ensures Entry(cs, b', Level(kind, TableAt(b', lo, n, mask), map[]), i, j) ==
            Entry(cs, b, Level(kind, TableAt(b, lo, n, mask), map[]), i, j)
  {
    hide TableAt, DecodeBlock, Cluster;
    var t := TableAt(b, lo, n, mask);
    if i < |t| && t[i] != 0 {
      assert t[i] in Referenced(t);
    }
  }

  lemma StepHolds(cs: nat, b: seq<byte>, j: Journal, k: Book, n: nat)
    requires JournalOk(cs, b, j) && (k == j.mapBook || k == j.refBook)
    requires 0 < n < |j.images| && n !in k.commits && n !in k.loosened
    ensures SameMapping(cs, k.commit.lo, k.commit.count, k.mask, j.images[n - 1], j.images[n])
    ensures forall m :: 0 <= m < |j.images| ==>
              j.mapBook.commit.Hi() <= |j.images[m]| && j.refBook.commit.Hi() <= |j.images[m]|
  {
    assert Step(cs, j.images, k, n);
  }

  /** The table was not written, and nothing came loose. */
  predicate SamePage(k: Book, k': Book) {
    && k'.commit == k.commit && k'.mask == k.mask && k'.commits == k.commits && k'.loose == k.loose
    && k'.thaws == k.thaws
    && (!k.loose ==> k'.loosened == k.loosened)
  }

  /** Neither table was written, though the guest's data may have been. */
  predicate SamePages(j: Journal, j': Journal) {
    && j.images <= j'.images && SamePage(j.mapBook, j'.mapBook) && SamePage(j.refBook, j'.refBook)
    && j'.slots == j.slots
  }

  predicate Continued(j: Journal, j': Journal) {
    SamePages(j, j') && j'.guest == j.guest
  }

  /** What was written before still counts as written. */
  predicate GuestKept(j: Journal, j': Journal) {
    forall n :: n in j.guest ==> n in j'.guest && j'.guest[n] == j.guest[n]
  }

  lemma PagesTrans(j: Journal, j1: Journal, j2: Journal)
    requires SamePages(j, j1) && SamePages(j1, j2)
    ensures SamePages(j, j2)
  {
  }

  lemma ContinuedTrans(j: Journal, j1: Journal, j2: Journal)
    requires Continued(j, j1) && Continued(j1, j2)
    ensures Continued(j, j2)
  {
  }

  lemma ContinuedSelf(j: Journal)
    ensures Continued(j, j)
  {
  }

  /** The table may have been written, after image `n`; nothing came loose. */
  ghost predicate NextPage(k: Book, k': Book, n: nat) {
    && k'.commit.lo == k.commit.lo && k'.commit.count == k.commit.count && k'.mask == k.mask
    && k.commits <= k'.commits && (forall m :: m in k'.commits ==> m in k.commits || n <= m)
    && k'.thaws == k.thaws
    && (!k.loose ==> !k'.loose && k'.loosened == k.loosened)
  }

  ghost predicate Later(j: Journal, j': Journal) {
    && j.images <= j'.images
    && NextPage(j.mapBook, j'.mapBook, |j.images|) && NextPage(j.refBook, j'.refBook, |j.images|)
  }

  /** At most the one table was written: a single image for the write, or none where it was not due. */
  ghost predicate WrittenOnce(j: Journal, j': Journal, k: Book, k': Book, wrote: bool) {
    && k'.commits == (if wrote then k.commits + {|j.images|} else k.commits)
    && |j'.images| == |j.images| + if wrote then 1 else 0
  }

  /**
   * What a sync does: whatever else it writes, at the very end come one write of the L1 table, if that
   * is due, and one of the refcount table, if that is due.
   */
  ghost predicate Synced(j: Journal, j': Journal, l1: bool, rt: bool) {
    var n := |j'.images|;
    var last := n - if rt then 1 else 0;
    && |j.images| <= last - (if l1 then 1 else 0)
    && j'.mapBook.commits == (if l1 then j.mapBook.commits + {last - 1} else j.mapBook.commits)
    && j'.refBook.commits == (if rt then j.refBook.commits + {n - 1} else j.refBook.commits)
  }

  lemma SyncedOk(j: Journal, j2: Journal, j3: Journal, j': Journal, l1: bool, rt: bool)
    requires Continued(j, j2)
    requires WrittenOnce(j2, j3, j2.mapBook, j3.mapBook, l1) && SamePage(j2.refBook, j3.refBook)
    requires WrittenOnce(j3, j', j3.refBook, j'.refBook, rt) && SamePage(j3.mapBook, j'.mapBook)
    ensures Synced(j, j', l1, rt)
    ensures j'.mapBook.commit == j3.mapBook.commit && j'.mapBook.loose == j3.mapBook.loose
  {
  }

  lemma LaterTrans(j: Journal, j1: Journal, j2: Journal)
    requires SamePages(j, j1) || Continued(j, j1) || Later(j, j1)
    requires SamePages(j1, j2) || Continued(j1, j2) || Later(j1, j2)
    ensures Later(j, j2)
  {
  }

  /** Blocks may have come loose from image `n` on; the table was not written. */
  ghost predicate Edited(k: Book, k': Book, n: nat) {
    && k'.commit.lo == k.commit.lo && k'.commit.count == k.commit.count && k'.mask == k.mask
    && k'.commits == k.commits
    && k.thaws <= k'.thaws && (forall m :: m in k'.thaws ==> m in k.thaws || n <= m)
  }

  ghost predicate Discarded(j: Journal, j': Journal) {
    && j.images <= j'.images
    && Edited(j.mapBook, j'.mapBook, |j.images|) && Edited(j.refBook, j'.refBook, |j.images|)
  }

  lemma DiscardedTrans(j: Journal, j1: Journal, j2: Journal)
    requires SamePages(j, j1) || Continued(j, j1) || Discarded(j, j1)
    requires SamePages(j1, j2) || Continued(j1, j2) || Discarded(j1, j2)
    ensures Discarded(j, j2)
  {
  }

  /** Image `n` was written, and the table was not. */
  function Noted(k: Book, n: nat): Book {
    k.(loosened := if k.loose then k.loosened + {n} else k.loosened)
  }

  lemma NotedHistory(images: seq<seq<byte>>, k: Book, b: seq<byte>)
    requires images != [] && HistoryOk(images, k)
    ensures HistoryOk(images + [b], Noted(k, |images|))
  {
    hide TableWrite;
    var k' := Noted(k, |images|);
    forall n | n in k'.loosened
      ensures 0 < n < |images + [b]| && LooseAt(k', n)
    {
      assert LooseAt(k, n);
    }
    assert LooseAt(k, |images|) ==> LooseAt(k', |images| + 1);
  }

  lemma NotedOk(cs: nat, images: seq<seq<byte>>, k: Book, b: seq<byte>)
    requires BookOk(cs, images, k) && Protected(cs, k.commit, images[k.commit.base], b)
    ensures BookOk(cs, images + [b], Noted(k, |images|))
  {
    hide HistoryOk;
    var images', k' := images + [b], Noted(k, |images|);
    KeptAppend(cs, images, k.commit, b);
    NotedHistory(images, k, b);
    forall n | 0 < n < |images'|
      ensures n in k'.commits || n in k'.loosened || Step(cs, images', k', n)
    {
      if n < |images| {
        assert Step(cs, images, k, n) ==> Step(cs, images', k', n);
      }
    }
  }

  function Append(j: Journal, b: seq<byte>, t: Option<Touch>): Journal {
    Journal(j.images + [b], Noted(j.mapBook, |j.images|), Noted(j.refBook, |j.images|), j.slots,
            Marked(j.guest, |j.images|, t))
  }

  /** A write that touches nothing protected, and no data but what the guest writes. */
  lemma AppendOk(cs: nat, b: seq<byte>, j: Journal, b': seq<byte>, t: Option<Touch>)
    requires JournalOk(cs, b, j) && |b| <= |b'| && Explained(cs, j.slots, b, b', t)
    requires Protected(cs, j.mapBook.commit, j.images[j.mapBook.commit.base], b')
    requires Protected(cs, j.refBook.commit, j.images[j.refBook.commit.base], b')
    ensures JournalOk(cs, b', Append(j, b', t)) && SamePages(j, Append(j, b', t))
    ensures t.None? ==> Continued(j, Append(j, b', t))
  {
    hide BookOk, ViewOk, Protected, Explained;
    NotedOk(cs, j.images, j.mapBook, b');
    NotedOk(cs, j.images, j.refBook, b');
    DataAppend(cs, j.images, j.mapBook, j.slots, j.guest, b', t);
  }

  lemma SpliceOk(cs: nat, b: seq<byte>, j: Journal, off: nat, d: seq<byte>, t: Option<Touch>)
    requires JournalOk(cs, b, j) && off + |d| <= |b|
    requires Clear(cs, j.mapBook.commit, off, |d|) && Clear(cs, j.refBook.commit, off, |d|)
    requires Explained(cs, j.slots, b, Splice(b, off, d), t)
    ensures JournalOk(cs, Splice(b, off, d), Append(j, Splice(b, off, d), t))
    ensures SamePages(j, Append(j, Splice(b, off, d), t))
    ensures t.None? ==> Continued(j, Append(j, Splice(b, off, d), t))
  {
    hide BookOk, ViewOk, Clear, Protected, Splice, Explained;
    BookProtects(cs, j.images, j.mapBook);
    BookProtects(cs, j.images, j.refBook);
    ProtectedSplice(cs, j.mapBook.commit, j.images[j.mapBook.commit.base], b, off, d);
    ProtectedSplice(cs, j.refBook.commit, j.images[j.refBook.commit.base], b, off, d);
    AppendOk(cs, b, j, Splice(b, off, d), t);
  }

  lemma GrowOk(cs: nat, b: seq<byte>, j: Journal, z: seq<byte>)
    requires JournalOk(cs, b, j)
    ensures JournalOk(cs, b + z, Append(j, b + z, None)) && Continued(j, Append(j, b + z, None))
  {
    hide BookOk, Clear, Protected, Splice, Explained;
    BookProtects(cs, j.images, j.mapBook);
    BookProtects(cs, j.images, j.refBook);
    ProtectedGrow(cs, j.mapBook.commit, j.images[j.mapBook.commit.base], b, z);
    ProtectedGrow(cs, j.refBook.commit, j.images[j.refBook.commit.base], b, z);
    GrowBeside(cs, j.slots, b, z);
    AppendOk(cs, b, j, b + z, None);
  }

  /** Image `n` is the result of writing the table, as `t`. */
  function Recorded(k: Book, n: nat, t: seq<nat>): Book {
    k.(commit := Commit(n, k.commit.lo, k.commit.count, Referenced(t)), commits := k.commits + {n}, loose := false)
  }

  lemma SpliceRange(b: seq<byte>, off: nat, d: seq<byte>)
    requires off + |d| <= |b|
    ensures |Splice(b, off, d)| == |b| && Splice(b, off, d)[off..off + |d|] == d
  {
  }

  lemma TableIn(b: seq<byte>, lo: nat, n: nat, mask: bool, d: seq<byte>)
    requires |d| == 8 * n && lo + |d| <= |b| && b[lo..lo + |d|] == d
    ensures TableAt(b, lo, n, mask) == DecodePointers(d, n, mask)
  {
    hide DecodePointers;
  }

  lemma TableWritten(b: seq<byte>, lo: nat, t: seq<nat>, mask: bool)
    requires lo + 8 * |t| <= |b| && forall i :: 0 <= i < |t| ==> IsPointer(t[i])
    ensures TableAt(Splice(b, lo, EncodePointers(t, false)), lo, |t|, mask) == t
  {
    hide *;
    var d := EncodePointers(t, false);
    PointersRoundTrip(t, false, mask);
    SpliceRange(b, lo, d);
    TableIn(Splice(b, lo, d), lo, |t|, mask, d);
  }

  lemma StepsAppend(cs: nat, images: seq<seq<byte>>, k: Book, b: seq<byte>, k': Book)
    requires BookOk(cs, images, k)
    requires k'.commit.lo == k.commit.lo && k'.commit.count == k.commit.count && k'.mask == k.mask
    requires k.commits <= k'.commits && |images| in k'.commits && k.loosened <= k'.loosened
    ensures forall n :: 0 < n < |images + [b]| ==> n in k'.commits || n in k'.loosened || Step(cs, images + [b], k', n)
  {
    hide SameMapping, Kept, HistoryOk;
    forall n | 0 < n < |images + [b]|
      ensures n in k'.commits || n in k'.loosened || Step(cs, images + [b], k', n)
    {
      if n < |images| {
        assert Step(cs, images, k, n) ==> Step(cs, images + [b], k', n);
      }
    }
  }

  lemma RecordedHistory(images: seq<seq<byte>>, k: Book, b: seq<byte>, t: seq<nat>)
    requires images != [] && HistoryOk(images, k)
    requires TableWrite(k.commit.lo, k.commit.count, images[|images| - 1], b)
    ensures HistoryOk(images + [b], Recorded(k, |images|, t))
  {
    hide TableWrite;
    var k' := Recorded(k, |images|, t);
    forall n | n in k'.loosened
      ensures 0 < n < |images + [b]| && LooseAt(k', n)
    {
      assert LooseAt(k, n);
    }
  }

  lemma FreshBook(cs: nat, images: seq<seq<byte>>, k: Book, b: seq<byte>, t: seq<nat>)
    requires BookOk(cs, images, k) && |b| == |images[|images| - 1]|
    requires TableWrite(k.commit.lo, k.commit.count, images[|images| - 1], b)
    requires t == TableAt(b, k.commit.lo, k.commit.count, k.mask)
    requires forall a :: a in Referenced(t) ==> a + cs <= |b|
    ensures BookOk(cs, images + [b], Recorded(k, |images|, t))
  {
    hide SameMapping, Step, TableAt, Referenced, HistoryOk;
    StepsAppend(cs, images, k, b, Recorded(k, |images|, t));
    RecordedHistory(images, k, b, t);
    assert Protected(cs, Recorded(k, |images|, t).commit, b, b);
  }

  lemma RecordedOk(cs: nat, images: seq<seq<byte>>, k: Book, t: seq<nat>)
    requires BookOk(cs, images, k) && |t| == k.commit.count
    requires forall i :: 0 <= i < |t| ==> IsPointer(t[i])
    requires forall a :: a in Referenced(t) ==> a + cs <= |images[|images| - 1]|
    ensures var b := Splice(images[|images| - 1], k.commit.lo, EncodePointers(t, false));
            BookOk(cs, images + [b], Recorded(k, |images|, t))
  {
    hide BookOk, TableAt, IsPointer, Referenced, EncodePointers, Splice;
    BookProtects(cs, images, k);
    TableWritten(images[|images| - 1], k.commit.lo, t, k.mask);
    SpliceRange(images[|images| - 1], k.commit.lo, EncodePointers(t, false));
    FreshBook(cs, images, k, Splice(images[|images| - 1], k.commit.lo, EncodePointers(t, false)), t);
  }

  /** The L1 table was written; to the other table this is a write like any other. */
  function MapCommitted(j: Journal, b: seq<byte>, t: seq<nat>, slots: map<nat, (nat, nat)>): Journal {
    Journal(j.images + [b], Recorded(j.mapBook, |j.images|, t), Noted(j.refBook, |j.images|), slots, j.guest)
  }

  function RefCommitted(j: Journal, b: seq<byte>, t: seq<nat>): Journal {
    Journal(j.images + [b], Noted(j.mapBook, |j.images|), Recorded(j.refBook, |j.images|, t), j.slots, j.guest)
  }

  lemma BookProtects(cs: nat, images: seq<seq<byte>>, k: Book)
    requires BookOk(cs, images, k)
    ensures images != [] && k.commit.base < |images| && k.commit.Hi() <= |images[|images| - 1]|
    ensures Protected(cs, k.commit, images[k.commit.base], images[|images| - 1])
  {
  }

  lemma CommitOk(cs: nat, b: seq<byte>, j: Journal, k: Book, other: Book, t: seq<nat>)
    requires JournalOk(cs, b, j) && ((k == j.mapBook && other == j.refBook) || (k == j.refBook && other == j.mapBook))
    requires |t| == k.commit.count && forall i :: 0 <= i < |t| ==> IsPointer(t[i])
    requires Clear(cs, other.commit, k.commit.lo, 8 * |t|)
    requires forall a :: a in Referenced(t) ==> a + cs <= |b|
    ensures var b' := Splice(b, k.commit.lo, EncodePointers(t, false));
            BookOk(cs, j.images + [b'], Recorded(k, |j.images|, t)) &&
            BookOk(cs, j.images + [b'], Noted(other, |j.images|))
  {
    hide BookOk, ViewOk, IsPointer, Referenced, Clear, Protected, EncodePointers, Splice;
    BookProtects(cs, j.images, k);
    BookProtects(cs, j.images, other);
    var d := EncodePointers(t, false);
    ProtectedSplice(cs, other.commit, j.images[other.commit.base], b, k.commit.lo, d);
    NotedOk(cs, j.images, other, Splice(b, k.commit.lo, d));
    RecordedOk(cs, j.images, k, t);
  }

  lemma MapCommitOk(cs: nat, b: seq<byte>, j: Journal, t: seq<nat>, slots: map<nat, (nat, nat)>)
    requires JournalOk(cs, b, j) && |t| == j.mapBook.commit.count && j.mapBook.commit.Hi() <= |b|
    requires forall i :: 0 <= i < |t| ==> IsPointer(t[i])
    requires Clear(cs, j.refBook.commit, j.mapBook.commit.lo, 8 * |t|)
    requires forall a :: a in Referenced(t) ==> a + cs <= |b|
    requires forall d :: d in slots ==> d + cs <= |b|
    requires SlotsFound(cs, j.mapBook.commit.lo, |t|, j.mapBook.mask,
                        Splice(b, j.mapBook.commit.lo, EncodePointers(t, false)), slots)
    ensures var b' := Splice(b, j.mapBook.commit.lo, EncodePointers(t, false));
            JournalOk(cs, b', MapCommitted(j, b', t, slots))
  {
    hide BookOk, ViewOk, IsPointer, Referenced, Clear, EncodePointers, Splice, SlotsFound;
    CommitOk(cs, b, j, j.mapBook, j.refBook, t);
    DataRecorded(cs, j.images, j.mapBook, j.slots, j.guest,
                 Splice(b, j.mapBook.commit.lo, EncodePointers(t, false)), t, slots);
  }

  lemma RefCommitOk(cs: nat, b: seq<byte>, j: Journal, t: seq<nat>)
    requires JournalOk(cs, b, j) && |t| == j.refBook.commit.count && j.refBook.commit.Hi() <= |b|
    requires forall i :: 0 <= i < |t| ==> IsPointer(t[i])
    requires Clear(cs, j.mapBook.commit, j.refBook.commit.lo, 8 * |t|)
    requires Beside(cs, j.slots, j.refBook.commit.lo, 8 * |t|)
    requires forall a :: a in Referenced(t) ==> a + cs <= |b|
    ensures var b' := Splice(b, j.refBook.commit.lo, EncodePointers(t, false));
            JournalOk(cs, b', RefCommitted(j, b', t))
  {
    hide BookOk, ViewOk, IsPointer, Referenced, Clear, EncodePointers, Splice, Beside, Explained, Noted, Recorded;
    var d := EncodePointers(t, false);
    var b' := Splice(b, j.refBook.commit.lo, d);
    CommitOk(cs, b, j, j.refBook, j.mapBook, t);
    SpliceBeside(cs, j.slots, b, j.refBook.commit.lo, d);
    DataAppend(cs, j.images, j.mapBook, j.slots, j.guest, b', None);
  }

  /** A table that is not dirty need not be written: its commit starts over all the same. */
  function Restarted(k: Book, n: nat, t: seq<nat>): Book {
    k.(commit := Commit(n, k.commit.lo, k.commit.count, Referenced(t)), loose := false)
  }

  lemma RestartedOk(cs: nat, images: seq<seq<byte>>, k: Book, t: seq<nat>)
    requires BookOk(cs, images, k) && t == TableAt(images[|images| - 1], k.commit.lo, k.commit.count, k.mask)
    requires forall a :: a in Referenced(t) ==> a + cs <= |images[|images| - 1]|
    ensures BookOk(cs, images, Restarted(k, |images| - 1, t))
  {
    hide HistoryOk;
    SameHistory(images, k, Restarted(k, |images| - 1, t));
    SameSteps(cs, images, k, Restarted(k, |images| - 1, t));
  }

  /** A cluster that is edited in place, with image `n` next, leaves the protection of the commit. */
  function Loosened(k: Book, a: nat, n: nat): Book {
    if a in k.commit.frozen
    then k.(commit := k.commit.(frozen := k.commit.frozen - {a}), thaws := k.thaws + {n}, loose := true)
    else k
  }

  function Thawed(j: Journal, a: nat): Journal {
    j.(mapBook := Loosened(j.mapBook, a, |j.images|), refBook := Loosened(j.refBook, a, |j.images|))
  }

  lemma LoosenedOk(cs: nat, images: seq<seq<byte>>, k: Book, a: nat)
    requires BookOk(cs, images, k)
    ensures BookOk(cs, images, Loosened(k, a, |images|))
  {
    hide HistoryOk;
    SameSteps(cs, images, k, Loosened(k, a, |images|));
    SameHistory(images, k, Loosened(k, a, |images|));
  }

  /** Whatever was loose stays so, and what comes loose now does so before the next image. */
  lemma SameHistory(images: seq<seq<byte>>, k: Book, k': Book)
    requires HistoryOk(images, k)
    requires k'.commit.lo == k.commit.lo && k'.commit.count == k.commit.count && k'.commits == k.commits
    requires k'.loosened == k.loosened
    requires (k'.thaws == k.thaws && !k'.loose) || (k'.thaws == k.thaws + {|images|}) || k' == k
    ensures HistoryOk(images, k')
  {
    hide TableWrite;
    forall n | n in k'.loosened
      ensures 0 < n < |images| && LooseAt(k', n)
    {
      assert LooseAt(k, n);
    }
    if k'.thaws == k.thaws + {|images|} {
      assert |images| in k'.thaws;
      assert LooseAt(k', |images|);
    }
  }

  lemma ThawOk(cs: nat, b: seq<byte>, j: Journal, a: nat)
    requires JournalOk(cs, b, j)
    ensures JournalOk(cs, b, Thawed(j, a)) && Discarded(j, Thawed(j, a))
  {
    hide BookOk, SlotsFound, Unseen;
    LoosenedOk(cs, j.images, j.mapBook, a);
    LoosenedOk(cs, j.images, j.refBook, a);
    DataSame(cs, j.images, j.mapBook, j.slots, j.guest, Thawed(j, a).mapBook, j.slots);
  }

  lemma SameSteps(cs: nat, images: seq<seq<byte>>, k: Book, k': Book)
    requires BookOk(cs, images, k)
    requires k'.commit.lo == k.commit.lo && k'.commit.count == k.commit.count && k'.mask == k.mask
    requires k'.commits == k.commits && k'.loosened == k.loosened
    ensures forall n :: 0 < n < |images| ==> n in k'.commits || n in k'.loosened || Step(cs, images, k', n)
  {
    forall n | 0 < n < |images|
      ensures n in k'.commits || n in k'.loosened || Step(cs, images, k', n)
    {
      assert Step(cs, images, k, n) ==> Step(cs, images, k', n);
    }
  }

  /** The journal of a file that was just opened. */
  function Started(b: seq<byte>, mapCommit: Commit, refCommit: Commit, slots: map<nat, (nat, nat)>): Journal {
    Journal([b], Book(mapCommit, true, {}, {}, {}, false), Book(refCommit, false, {}, {}, {}, false), slots, map[])
  }
}
