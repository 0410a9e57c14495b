/**
 * Whole runs on an open image: what the guest sees, what the file keeps, and what is left after a
 * flush and a restart.
 */
module QcowRuns {
  import opened Wrappers
  import opened HostBytes
  import opened PointerTables
  import opened CachedTables
  import opened Journals
  import opened QcowImage
  import opened QcowSteps
  import opened QcowCommit
  import opened QcowRawFiles
  import opened QcowFiles
  import opened QcowOpens
  import opened QcowCrashes

  // What the invariant says about clusters.

  /** Every cluster a pointer or a free list names, with the place that names it. */
  datatype Place = Table(i: nat) | Mapped(i: nat, j: nat) | Counts(t: nat) | Free(k: nat) | Freed(k: nat)

  /** The cluster at a place; 0 where nothing is. */
  function At(g: Geometry, s: Image, p: Place): nat {
    match p
    case Table(i) => if i < |s.l2.top| then s.l2.top[i] else 0
    case Mapped(i, j) => Entry(g.clusterSize, s.bytes, s.l2, i, j)
    case Counts(t) => if t < |s.rc.top| then s.rc.top[t] else 0
    case Free(k) => if k < |s.avail| then s.avail[k] else 0
    case Freed(k) => if k < |s.unref| then s.unref[k] else 0
  }

  /**
   * No cluster is used twice: two places never name the same cluster, and a named cluster is
   * aligned, lies within the file and overlaps neither the header nor a top-level table.
   */
  lemma ClustersDisjoint(g: Geometry, s: Image, k: Ledger, p: Place, q: Place)
    requires Inv(g, s, k) && p != q && At(g, s, p) != 0
    ensures At(g, s, p) != At(g, s, q)
    ensures At(g, s, p) % g.clusterSize == 0 && At(g, s, p) + g.clusterSize <= |s.bytes|
    ensures !Reserved(g, At(g, s, p))
  {
    assert RoleAt(p) == RoleAt(q) ==> p == q;
    PlaceRole(g, s, k, p);
    if At(g, s, q) != 0 {
      PlaceRole(g, s, k, q);
    }
  }

  function RoleAt(p: Place): Role {
    match p
    case Table(i) => L2Table(i)
    case Mapped(i, j) => Data(i, j)
    case Counts(t) => RefBlock(t)
    case Free(k) => Avail(k)
    case Freed(k) => Unref(k)
  }

  lemma PlaceRole(g: Geometry, s: Image, k: Ledger, p: Place)
    requires Inv(g, s, k) && At(g, s, p) != 0
    ensures At(g, s, p) in k.own && k.own[At(g, s, p)] == RoleAt(p)
    ensures At(g, s, p) % g.clusterSize == 0 && At(g, s, p) + g.clusterSize <= |s.bytes|
    ensures !Reserved(g, At(g, s, p))
  {
  }

  /** Every table, block and data cluster in use has a reference. */
  lemma UsedIsCounted(g: Geometry, s: Image, k: Ledger, p: Place)
    requires Inv(g, s, k) && k.pending == {} && At(g, s, p) != 0 && !p.Free? && !p.Freed?
    ensures Count(g, s.bytes, s.rc, At(g, s, p)) >= 1
  {
    PlaceRole(g, s, k, p);
  }

  /** So has every cluster that holds a part of the header or of a top-level table. */
  lemma ReservedIsCounted(g: Geometry, s: Image, k: Ledger, a: nat)
    requires Inv(g, s, k) && k.pending == {} && a % g.clusterSize == 0 && Reserved(g, a)
    ensures Count(g, s.bytes, s.rc, a) >= 1
  {
  }

  predicate InUse(p: Place) {
    !p.Free? && !p.Freed?
  }

  /**
   * The host clusters are in order: no two places name the same one, a named one is aligned, within the file
   * and apart from header and tables, and whatever is in use has a count.
   */
  ghost predicate UsesOk(g: Geometry, s: Image)
    requires 2 <= g.clusterSize
  {
    && (forall p: Place, q: Place :: p != q && At(g, s, p) != 0 ==> At(g, s, p) != At(g, s, q))
    && (forall p: Place :: At(g, s, p) != 0 ==>
          && At(g, s, p) % g.clusterSize == 0 && At(g, s, p) + g.clusterSize <= |s.bytes| && !Reserved(g, At(g, s, p))
          && (InUse(p) ==> Count(g, s.bytes, s.rc, At(g, s, p)) >= 1))
    && (forall a: nat :: a % g.clusterSize == 0 && Reserved(g, a) ==> Count(g, s.bytes, s.rc, a) >= 1)
  }

  lemma InvUses(g: Geometry, s: Image, k: Ledger)
    requires Inv(g, s, k) && k.pending == {}
    ensures 2 <= g.clusterSize && UsesOk(g, s)
  {
    hide Inv, At, Count, Reserved;
    InvShape(g, s, k);
    forall p: Place, q: Place | p != q && At(g, s, p) != 0
      ensures At(g, s, p) != At(g, s, q)
    {
      ClustersDisjoint(g, s, k, p, q);
    }
    forall p: Place | At(g, s, p) != 0
      ensures At(g, s, p) % g.clusterSize == 0 && At(g, s, p) + g.clusterSize <= |s.bytes| && !Reserved(g, At(g, s, p))
      ensures InUse(p) ==> Count(g, s.bytes, s.rc, At(g, s, p)) >= 1
    {
      PlaceRole(g, s, k, p);
      if InUse(p) {
        UsedIsCounted(g, s, k, p);
      }
    }
    forall a: nat | a % g.clusterSize == 0 && Reserved(g, a)
      ensures Count(g, s.bytes, s.rc, a) >= 1
    {
      ReservedIsCounted(g, s, k, a);
    }
  }

  lemma ValidUses(q: QcowFile)
    requires q.Valid()
    ensures 2 <= q.g.clusterSize && UsesOk(q.g, q.Snap())
  {
    hide Inv, UsesOk, JournalOk, CommittedOk, CoverageOk;
    InvUses(q.g, q.Snap(), q.ledger);
  }

  // What the guest sees.

  datatype Op =
    | SeekTo(pos: SeekFrom)
    | ReadBytes(n: nat)
    | WriteBytes(data: seq<byte>)
    | PunchHole(offset: nat, length: nat)
    | WriteZeroes(offset: nat, length: nat)
    | Flush

  datatype Outcome = Position(r: IoResult<nat>) | Bytes(data: seq<byte>) | Written(n: nat) | Done

  /** A disk that is nothing but its bytes, and a position on it. */
  datatype Flat = Flat(disk: seq<byte>, offset: nat)

  predicate WordSized(op: Op) {
    (op.PunchHole? || op.WriteZeroes?) ==> op.offset <= U64_MAX && op.length <= U64_MAX
  }

  function FlatStep(f: Flat, op: Op): (Flat, Outcome)
    requires f.offset <= |f.disk|
  {
    match op
    case SeekTo(pos) =>
      var t := SeekTarget(pos, |f.disk|, f.offset);
      if 0 <= t <= |f.disk| then (f.(offset := t), Position(Ok(t))) else (f, Position(Err(EINVAL)))
    case ReadBytes(n) =>
      var m := LimitRangeFile(|f.disk|, f.offset, n);
      (f.(offset := f.offset + m), Bytes(f.disk[f.offset..f.offset + m]))
    case WriteBytes(data) =>
      var m := LimitRangeFile(|f.disk|, f.offset, |data|);
      (Flat(Splice(f.disk, f.offset, data[..m]), f.offset + m), Written(m))
    case PunchHole(offset, length) =>
      (f.(disk := ZeroedRange(f.disk, offset, LimitRangeFile(|f.disk|, offset, length))), Done)
    case WriteZeroes(offset, length) =>
      (f.(disk := ZeroedRange(f.disk, offset, LimitRangeFile(|f.disk|, offset, length))), Written(length))
    case Flush => (f, Done)
  }

  lemma FlatStepOk(f: Flat, op: Op)
    requires f.offset <= |f.disk|
    ensures FlatStep(f, op).0.offset <= |FlatStep(f, op).0.disk| == |f.disk|
  {
  }

  function FlatRun(f: Flat, ops: seq<Op>): (r: (Flat, seq<Outcome>))
    requires f.offset <= |f.disk|
    ensures r.0.offset <= |r.0.disk| == |f.disk| && |r.1| == |ops|
  {
    if ops == [] then (f, []) else
    var n := |ops| - 1;
    var before := FlatRun(f, ops[..n]);
    FlatStepOk(before.0, ops[n]);
    var (after, outcome) := FlatStep(before.0, ops[n]);
    (after, before.1 + [outcome])
  }

  predicate IsDiscard(op: Op) {
    op.PunchHole? || op.WriteZeroes?
  }

  /** Number of operations that may write the top-level tables. */
  function Flushes(ops: seq<Op>): nat {
    if ops == [] then 0 else Flushes(ops[..|ops| - 1]) + if ops[|ops| - 1].Flush? then 1 else 0
  }

  predicate NoDiscards(ops: seq<Op>) {
    forall k :: 0 <= k < |ops| ==> !IsDiscard(ops[k])
  }

  ghost function View(q: QcowFile): Flat
    reads q, q.raw, q.refcounts
  {
    Flat(q.Disk(), q.currentOffset)
  }

  /** The table was written at most `writes` times since image `n`, and came loose only since then. */
  ghost predicate Turned(k: Book, k': Book, n: nat, writes: nat) {
    && k'.commit.lo == k.commit.lo && k'.commit.count == k.commit.count && k'.mask == k.mask
    && k.commits <= k'.commits && |k'.commits| <= |k.commits| + writes
    && (forall m :: m in k'.commits ==> m in k.commits || n <= m)
    && k.thaws <= k'.thaws && (forall m :: m in k'.thaws ==> m in k.thaws || n <= m)
  }

  ghost predicate Grown(j: Journal, j': Journal, writes: nat) {
    && j.images <= j'.images
    && Turned(j.mapBook, j'.mapBook, |j.images|, writes)
    && Turned(j.refBook, j'.refBook, |j.images|, writes)
  }

  lemma GrownTrans(j: Journal, j1: Journal, j2: Journal, m: nat, n: nat)
    requires Grown(j, j1, m) && Grown(j1, j2, n)
    ensures Grown(j, j2, m + n)
  {
  }

  lemma GrownDiscarded(j: Journal, j': Journal)
    requires Discarded(j, j')
    ensures Grown(j, j', 0)
  {
  }

  lemma GrownSynced(j: Journal, j': Journal, l1: bool, rt: bool)
    requires Later(j, j') && Synced(j, j', l1, rt)
    ensures Grown(j, j', 1)
  {
  }

  /** One operation, on the image as on the flat disk. Only a full host file makes one fail. */
  method Execute(q: QcowFile, op: Op) returns (r: IoResult<Outcome>)
    requires q.Valid() && WordSized(op)
    modifies q, q.raw, q.refcounts
    ensures r.Err? ==> r.error == ENOSPC
    ensures r.Ok? ==> q.Valid() && old(View(q)).offset <= |old(View(q)).disk|
                      && (View(q), r.value) == FlatStep(old(View(q)), op)
    ensures r.Ok? && !IsDiscard(op) ==> Later(old(q.raw.journal), q.raw.journal)
    ensures r.Ok? ==> Grown(old(q.raw.journal), q.raw.journal, Flushes([op]))
    ensures r.Ok? && !IsDiscard(op) && !old(q.raw.journal).mapBook.loose ==>
              Recent(q.g, old(q.raw.journal), q.raw.journal, old(q.Disk()), q.Disk())
  {
    hide QcowFile.Valid, QcowFile.Disk, Contents, LimitRangeFile, Splice, ZeroedRange, SeekTarget, SamePages, Continued,
         Later, Discarded, Synced, Grown, Recent, JournalOk, WroteOnly, GuestKept, Settled;
    q.ValidBasics();
    JournalIsOk(q);
    ghost var j, b, d := q.raw.journal, q.raw.bytes, q.Disk();
    ContinuedSelf(j);
    match op
    case SeekTo(pos) =>
      var moved := q.Seek(pos);
      LaterContinued(j, q.raw.journal);
      ReadRecent(q, b, j);
      return Ok(Position(moved));
    case ReadBytes(n) =>
      var buf := new byte[n];
      var got := q.Read(buf);
      LaterContinued(j, q.raw.journal);
      ReadRecent(q, b, j);
      return Ok(Bytes(buf[..got.value]));
    case WriteBytes(data) =>
      var put := q.Write(data);
      LaterContinued(j, q.raw.journal);
      if put.Ok? && !j.mapBook.loose {
        WriteRecent(q, b, j, old(q.currentOffset), data[..put.value], d);
      }
      return if put.Ok? then Ok(Written(put.value)) else Err(put.error);
    case PunchHole(offset, length) =>
      var punched := q.PunchHole(offset, length);
      GrownDiscarded(j, q.raw.journal);
      return if punched.Ok? then Ok(Done) else Err(punched.error);
    case WriteZeroes(offset, length) =>
      var zeroed := q.WriteZeroesAt(offset, length);
      GrownDiscarded(j, q.raw.journal);
      return if zeroed.Ok? then Ok(Written(zeroed.value)) else Err(zeroed.error);
    case Flush =>
      ghost var l1, rt := q.l1Table.dirty, q.refcounts.refTable.dirty;
      q.Flush();
      GrownSynced(j, q.raw.journal, l1, rt);
      if !j.mapBook.loose {
        FlushRecent(q, b, j, l1, rt);
      }
      return Ok(Done);
  }

  lemma JournalIsOk(q: QcowFile)
    requires q.Valid()
    ensures JournalOk(q.g.clusterSize, q.raw.bytes, q.raw.journal)
  {
    hide Inv, JournalOk, CommittedOk, CoverageOk;
  }

  /** An operation that writes no guest data shows nothing new on disk. */
  lemma ReadRecent(q: QcowFile, b: seq<byte>, j: Journal)
    requires q.Valid() && JournalOk(q.g.clusterSize, b, j) && Continued(j, q.raw.journal)
    ensures !j.mapBook.loose ==> Recent(q.g, j, q.raw.journal, q.Disk(), q.Disk())
  {
    hide QcowFile.Valid, QcowFile.Disk, JournalOk, Recent, SamePages, WroteOnly, Splice;
    q.ValidBasics();
    if !j.mapBook.loose {
      WroteUnder(q.g, j, q.raw.journal, 0, []);
      SpliceNothing(q.Disk(), 0);
      WriteRecent(q, b, j, 0, [], q.Disk());
    }
  }

  // What is found on disk at any moment of a run.

  /** The disk after the first `k` operations. */
  function Past(f: Flat, ops: seq<Op>, k: nat): (d: seq<byte>)
    requires f.offset <= |f.disk| && k <= |ops|
    ensures |d| == |f.disk|
  {
    FlatRun(f, ops[..k]).0.disk
  }

  /** At some point of the run, its beginning and end included, the disk held `x` at `v`. */
  ghost predicate Held(f: Flat, ops: seq<Op>, v: nat, x: byte)
    requires f.offset <= |f.disk| && v < |f.disk|
  {
    exists k: nat :: k <= |ops| && Past(f, ops, k)[v] == x
  }

  /** Every image since shows at every address what the file showed then, or what the disk has held since. */
  ghost predicate Survives(g: Geometry, j: Journal, j': Journal, f: Flat, ops: seq<Op>) {
    && 8 <= g.clusterSize && j.images != [] && f.offset <= |f.disk| == g.size
    && forall n, v :: |j.images| - 1 <= n < |j'.images| && 0 <= v < g.size ==>
         var x := DiskByte(g, j'.images[n], v);
         x == DiskByte(g, j.images[|j.images| - 1], v) || Held(f, ops, v, x)
  }

  lemma HeldLonger(f: Flat, ops: seq<Op>, n: nat, v: nat, x: byte)
    requires f.offset <= |f.disk| && v < |f.disk| && n < |ops| && Held(f, ops[..n], v, x)
    ensures Held(f, ops[..n + 1], v, x)
  {
    hide FlatRun;
    var k: nat :| k <= n && Past(f, ops[..n], k)[v] == x;
    assert ops[..n][..k] == ops[..n + 1][..k];
    assert Past(f, ops[..n + 1], k)[v] == x;
  }

  lemma HeldAt(f: Flat, ops: seq<Op>, k: nat, v: nat)
    requires f.offset <= |f.disk| && v < |f.disk| && k <= |ops|
    ensures Held(f, ops, v, FlatRun(f, ops[..k]).0.disk[v])
  {
    hide FlatRun;
    assert Past(f, ops, k)[v] == FlatRun(f, ops[..k]).0.disk[v];
  }

  lemma SurvivesStart(g: Geometry, j: Journal, f: Flat)
    requires 8 <= g.clusterSize && j.images != [] && f.offset <= |f.disk| == g.size
    ensures Survives(g, j, j, f, [])
  {
  }

  /** One more operation. */
  lemma SurvivesStep(g: Geometry, j0: Journal, j: Journal, j': Journal, f: Flat, ops: seq<Op>, n: nat)
    requires n < |ops| && Survives(g, j0, j, f, ops[..n]) && j0.images <= j.images <= j'.images
    requires Recent(g, j, j', FlatRun(f, ops[..n]).0.disk, FlatRun(f, ops[..n + 1]).0.disk)
    ensures Survives(g, j0, j', f, ops[..n + 1])
  {
    hide DiskByte, FlatRun, Held;
    var now := ops[..n + 1];
    assert now[..n] == ops[..n] && now[..n + 1] == now;
    forall p, v | |j0.images| - 1 <= p < |j'.images| && 0 <= v < g.size
      ensures var x := DiskByte(g, j'.images[p], v);
              x == DiskByte(g, j0.images[|j0.images| - 1], v) || Held(f, now, v, x)
    {
      var x, y := DiskByte(g, j'.images[p], v), DiskByte(g, j.images[|j.images| - 1], v);
      HeldAt(f, now, n, v);
      HeldAt(f, now, n + 1, v);
      if Held(f, ops[..n], v, x) {
        HeldLonger(f, ops, n, v, x);
      }
      if Held(f, ops[..n], v, y) {
        HeldLonger(f, ops, n, v, y);
      }
    }
  }

  lemma LaterContinued(j: Journal, j': Journal)
    requires SamePages(j, j') || Continued(j, j')
    ensures Later(j, j') && Grown(j, j', 0)
  {
  }

  lemma StaysTight(j: Journal, j1: Journal, j2: Journal)
    requires Later(j, j1) && Later(j1, j2)
    ensures !j.mapBook.loose ==> !j1.mapBook.loose
    ensures j.images <= j1.images <= j2.images
  {
  }

  lemma JournalNotEmpty(q: QcowFile)
    requires q.Valid()
    ensures q.raw.journal.images != []
  {
    hide Inv, CommittedOk, CoverageOk, BookOk, ViewOk;
  }

  lemma MoreFlushes(ops: seq<Op>, n: nat)
    requires n < |ops|
    ensures Flushes(ops[..n + 1]) == Flushes(ops[..n]) + Flushes([ops[n]])
  {
    assert ops[..n + 1][..n] == ops[..n];
    assert [ops[n]][..0] == [];
  }

  lemma NoFlushes()
    ensures Flushes([]) == 0
  {
  }

  /**
   * Every run of operations that succeed shows the guest what a flat array of bytes would, and leaves the
   * host clusters in order. Each of the two tables is written at most once per flush; if no operation
   * discards, nothing comes loose, so `RunCommitSafety` speaks about every image written on the way.
   */
  method Run(q: QcowFile, ops: seq<Op>) returns (r: IoResult<seq<Outcome>>)
    requires q.Valid() && forall k :: 0 <= k < |ops| ==> WordSized(ops[k])
    modifies q, q.raw, q.refcounts
    ensures r.Err? ==> r.error == ENOSPC
    ensures r.Ok? ==> q.Valid() && old(View(q)).offset <= |old(View(q)).disk|
                      && (View(q), r.value) == FlatRun(old(View(q)), ops)
                      && 2 <= q.g.clusterSize && UsesOk(q.g, q.Snap())
    ensures r.Ok? && NoDiscards(ops) ==> Later(old(q.raw.journal), q.raw.journal)
    ensures r.Ok? ==> Grown(old(q.raw.journal), q.raw.journal, Flushes(ops))
    ensures r.Ok? && NoDiscards(ops) && !old(q.raw.journal).mapBook.loose ==>
              Survives(q.g, old(q.raw.journal), q.raw.journal, old(View(q)), ops)
  {
    hide QcowFile.Valid, QcowFile.Disk, Later, FlatStep, Grown, UsesOk, Survives, Recent, Flushes;
    q.ValidBasics();
    ghost var f, j0 := View(q), q.raw.journal;
    ContinuedSelf(j0);
    LaterContinued(j0, j0);
    JournalNotEmpty(q);
    SurvivesStart(q.g, j0, f);
    NoFlushes();
    assert ops[..0] == [];
    var outcomes: seq<Outcome> := [];
    for n := 0 to |ops|
      invariant q.Valid()
      invariant (View(q), outcomes) == FlatRun(f, ops[..n])
      invariant NoDiscards(ops[..n]) ==> Later(j0, q.raw.journal)
      invariant Grown(j0, q.raw.journal, Flushes(ops[..n]))
      invariant NoDiscards(ops[..n]) && !j0.mapBook.loose ==> Survives(q.g, j0, q.raw.journal, f, ops[..n])
    {
      ghost var j1 := q.raw.journal;
      assert ops[..n + 1][..n] == ops[..n] && ops[..n + 1][n] == ops[n];
      var step := Execute(q, ops[n]);
      if step.Err? {
        return Err(step.error);
      }
      outcomes := outcomes + [step.value];
      GrownTrans(j0, j1, q.raw.journal, Flushes(ops[..n]), Flushes([ops[n]]));
      MoreFlushes(ops, n);
      if NoDiscards(ops[..n + 1]) {
        assert NoDiscards(ops[..n]) by {
          assert forall k :: 0 <= k < n ==> ops[..n][k] == ops[..n + 1][k];
        }
        LaterTrans(j0, j1, q.raw.journal);
        StaysTight(j0, j1, q.raw.journal);
        if !j0.mapBook.loose {
          SurvivesStep(q.g, j0, j1, q.raw.journal, f, ops, n);
        }
      }
    }
    assert ops[..|ops|] == ops;
    ValidUses(q);
    return Ok(outcomes);
  }

  /** The virtual disk an image of the file shows when it is opened. */
  ghost function Found(g: Geometry, b: seq<byte>): (d: seq<byte>)
    requires 8 <= g.clusterSize && InFile(g, b)
    ensures |d| == g.size
  {
    Contents(g, b, Opened(g, b).l2)
  }

  /** The image shows at every address what the disk has held there at some point of the run. */
  ghost predicate NothingLost(g: Geometry, b: seq<byte>, f: Flat, ops: seq<Op>)
    requires 8 <= g.clusterSize && f.offset <= |f.disk| == g.size
  {
    InFile(g, b) && forall v :: 0 <= v < g.size ==> Held(f, ops, v, Found(g, b)[v])
  }

  /**
   * Nothing falls back behind a flush: stop after any single write of a run that follows one, and every
   * byte of the disk found in the file is one the disk has held at that address since the flush.
   */
  method FlushAndRun(q: QcowFile, ops: seq<Op>) returns (r: IoResult<seq<Outcome>>, ghost start: nat)
    requires q.Valid() && (forall k :: 0 <= k < |ops| ==> WordSized(ops[k])) && NoDiscards(ops)
    modifies q, q.raw, q.refcounts
    ensures r.Ok? ==>
              && q.Valid() && 8 <= q.g.clusterSize && old(View(q)).offset <= |old(View(q)).disk| == q.g.size
              && |old(q.raw.journal).images| <= start <= |q.raw.journal.images|
              && forall n :: start <= n + 1 && 0 <= n < |q.raw.journal.images| ==>
                   NothingLost(q.g, q.raw.journal.images[n], old(View(q)), ops)
  {
    hide QcowFile.Valid, QcowFile.Disk, Later, FlatRun, Grown, UsesOk, Survives, Flushes, Settled, Synced, NothingLost;
    q.ValidBasics();
    ghost var j, f := q.raw.journal, View(q);
    q.Flush();
    ghost var j0, b0 := q.raw.journal, q.raw.bytes;
    start := |j0.images|;
    LaterLonger(j, j0);
    JournalNotEmpty(q);
    assert ShowsDisk(q.g, b0, f.disk) by {
      LastShown(q);
    }
    LastImage(q);
    r := Run(q, ops);
    if r.Ok? {
      LaterLonger(j0, q.raw.journal);
      forall n | start <= n + 1 && 0 <= n < |q.raw.journal.images|
        ensures NothingLost(q.g, q.raw.journal.images[n], f, ops)
      {
        AllInFile(q, n);
        LostNothing(q.g, j0, q.raw.journal, f, ops, n);
      }
    }
  }

  /** The file shows just this disk. */
  ghost predicate ShowsDisk(g: Geometry, b: seq<byte>, d: seq<byte>) {
    8 <= g.clusterSize && |d| == g.size && forall v :: 0 <= v < g.size ==> DiskByte(g, b, v) == d[v]
  }

  lemma LastShown(q: QcowFile)
    requires q.Valid() && Settled(q.g, q.Snap())
    ensures ShowsDisk(q.g, q.raw.bytes, q.Disk())
  {
    hide QcowFile.Valid, QcowFile.Disk, Settled, DiskByte;
    q.ValidBasics();
    LastImage(q);
    forall v | 0 <= v < q.g.size
      ensures DiskByte(q.g, q.raw.bytes, v) == q.Disk()[v]
    {
      FinalByte(q, v);
    }
  }

  lemma LastImage(q: QcowFile)
    requires q.Valid()
    ensures q.raw.journal.images != [] && q.raw.journal.images[|q.raw.journal.images| - 1] == q.raw.bytes
  {
    hide Inv, CommittedOk, CoverageOk, BookOk, ViewOk;
  }

  lemma LaterLonger(j: Journal, j': Journal)
    requires Later(j, j')
    ensures j.images <= j'.images && |j.images| <= |j'.images|
  {
  }

  lemma LostNothing(g: Geometry, j0: Journal, j: Journal, f: Flat, ops: seq<Op>, n: nat)
    requires Survives(g, j0, j, f, ops) && ShowsDisk(g, j0.images[|j0.images| - 1], f.disk)
    requires |j0.images| <= n + 1 && n < |j.images| && InFile(g, j.images[n])
    ensures NothingLost(g, j.images[n], f, ops)
  {
    hide FlatRun, DiskByte, Held, Contents, DiskL1;
    forall v | 0 <= v < g.size
      ensures Held(f, ops, v, Found(g, j.images[n])[v])
    {
      DiskByteShown(g, j.images[n], v);
      HeldFirst(f, ops, v);
    }
  }

  lemma HeldFirst(f: Flat, ops: seq<Op>, v: nat)
    requires f.offset <= |f.disk| && v < |f.disk|
    ensures Held(f, ops, v, f.disk[v])
  {
    assert ops[..0] == [];
    assert Past(f, ops, 0)[v] == f.disk[v];
  }

  // What the file keeps.

  /** The data cluster a reader of the file alone finds for entry `j` of L2 table `i`. */
  function DiskEntry(g: Geometry, b: seq<byte>, i: nat, j: nat): nat
    requires InFile(g, b)
  {
    Entry(g.clusterSize, b, Level(Pointers, DiskL1(g, b), map[]), i, j)
  }

  /**
   * Of all the images the file has had, each maps the virtual disk as its predecessor did, unless it is
   * the predecessor with an L1 table written into it, or comes after a discard that no such write follows.
   */
  lemma CommitStep(q: QcowFile, n: nat, i: nat, j: nat)
    requires q.Valid() && 0 < n < |q.raw.journal.images|
    requires n !in q.raw.journal.mapBook.commits && n !in q.raw.journal.mapBook.loosened
    ensures InFile(q.g, q.raw.journal.images[n - 1]) && InFile(q.g, q.raw.journal.images[n])
    ensures DiskEntry(q.g, q.raw.journal.images[n], i, j) == DiskEntry(q.g, q.raw.journal.images[n - 1], i, j)
  {
    hide Inv, JournalOk, CoverageOk, SameMapping, DecodePointers;
    var g, images := q.g, q.raw.journal.images;
    StepHolds(g.clusterSize, q.raw.bytes, q.raw.journal, q.raw.journal.mapBook, n);
    MappingEntries(g.clusterSize, Pointers, g.l1Offset, g.l1Len, true, images[n - 1], images[n], i, j);
  }

  /** Image `n` is accounted for: see `HistoryOk`. */
  lemma ExemptImages(q: QcowFile, n: nat)
    requires q.Valid() && 0 < n < |q.raw.journal.images|
    ensures var k := q.raw.journal.mapBook;
            && (n in k.commits ==> TableWrite(q.g.l1Offset, q.g.l1Len, q.raw.journal.images[n - 1],
                                              q.raw.journal.images[n]))
            && (n in k.loosened ==> LooseAt(k, n))
    ensures var k := q.raw.journal.refBook;
            && (n in k.commits ==>
                  TableWrite(q.g.refTableOffset, q.g.refTableLen, q.raw.journal.images[n - 1], q.raw.journal.images[n]))
            && (n in k.loosened ==> LooseAt(k, n))
  {
    hide Inv, CoverageOk, TableWrite, LooseAt, Kept, Step;
  }

  /** None of the images after `m`, up to `n`, is a write of the table or comes after a discard. */
  ghost predicate Undisturbed(k: Book, m: nat, n: nat) {
    forall p :: m < p <= n ==> p !in k.commits && p !in k.loosened
  }

  /** Commit safety: between two writes of the L1 table the file maps the virtual disk the same way throughout. */
  lemma {:induction false} CommitSafety(q: QcowFile, m: nat, n: nat, i: nat, j: nat)
    requires q.Valid() && m <= n < |q.raw.journal.images| && Undisturbed(q.raw.journal.mapBook, m, n)
    ensures InFile(q.g, q.raw.journal.images[m]) && InFile(q.g, q.raw.journal.images[n])
    ensures DiskEntry(q.g, q.raw.journal.images[n], i, j) == DiskEntry(q.g, q.raw.journal.images[m], i, j)
    decreases n
  {
    hide QcowFile.Valid, DiskEntry;
    AllInFile(q, n);
    AllInFile(q, m);
    if m < n {
      CommitStep(q, n, i, j);
      CommitSafety(q, m, n - 1, i, j);
    }
  }

  /** The same for the refcount table and the counts it leads to. */
  lemma {:induction false} CountCommitSafety(q: QcowFile, m: nat, n: nat, a: nat)
    requires q.Valid() && m <= n < |q.raw.journal.images| && Undisturbed(q.raw.journal.refBook, m, n)
    ensures InFile(q.g, q.raw.journal.images[m]) && InFile(q.g, q.raw.journal.images[n]) && 2 <= q.g.clusterSize
    ensures DiskCount(q.g, q.raw.journal.images[n], a) == DiskCount(q.g, q.raw.journal.images[m], a)
    decreases n
  {
    hide QcowFile.Valid, DiskCount, InFile;
    q.ValidBasics();
    AllInFile(q, n);
    AllInFile(q, m);
    if m < n {
      CountCommitStep(q, n, a);
      CountCommitSafety(q, m, n - 1, a);
    }
  }

  lemma AllInFile(q: QcowFile, n: nat)
    requires q.Valid() && n < |q.raw.journal.images|
    ensures InFile(q.g, q.raw.journal.images[n])
  {
    hide Inv, CoverageOk, HistoryOk, Kept, Step;
  }

  /**
   * What a run without discards leaves on disk at any moment: every image it writes up to the next write
   * of the L1 table leads from virtual clusters to the same data clusters as the image before it.
   */
  lemma RunCommitSafety(q: QcowFile, b0: seq<byte>, j0: Journal, m: nat, n: nat, i: nat, j: nat)
    requires q.Valid() && JournalOk(q.g.clusterSize, b0, j0) && Later(j0, q.raw.journal) && !j0.mapBook.loose
    requires |j0.images| - 1 <= m <= n < |q.raw.journal.images|
    requires forall p :: m < p <= n ==> p !in q.raw.journal.mapBook.commits
    ensures InFile(q.g, q.raw.journal.images[m]) && InFile(q.g, q.raw.journal.images[n])
    ensures DiskEntry(q.g, q.raw.journal.images[n], i, j) == DiskEntry(q.g, q.raw.journal.images[m], i, j)
  {
    hide QcowFile.Valid, DiskEntry, Kept, Step;
    CommitSafety(q, m, n, i, j);
  }

  /** The count a reader of the file alone finds for the cluster at `a`. */
  function DiskCount(g: Geometry, b: seq<byte>, a: nat): nat
    requires InFile(g, b) && 2 <= g.clusterSize
  {
    Count(g, b, Opened(g, b).rc, a)
  }

  lemma CountCommitStep(q: QcowFile, n: nat, a: nat)
    requires q.Valid() && 0 < n < |q.raw.journal.images|
    requires n !in q.raw.journal.refBook.commits && n !in q.raw.journal.refBook.loosened
    ensures InFile(q.g, q.raw.journal.images[n - 1]) && InFile(q.g, q.raw.journal.images[n])
    ensures 2 <= q.g.clusterSize
    ensures DiskCount(q.g, q.raw.journal.images[n], a) == DiskCount(q.g, q.raw.journal.images[n - 1], a)
  {
    hide Inv, JournalOk, CoverageOk, SameMapping, DecodePointers, RefIndex, Entry;
    var g, images := q.g, q.raw.journal.images;
    StepHolds(g.clusterSize, q.raw.bytes, q.raw.journal, q.raw.journal.refBook, n);
    var (t, k) := RefIndex(g, a);
    MappingEntries(g.clusterSize, Kind.Counts, g.refTableOffset, g.refTableLen, false, images[n - 1], images[n], t, k);
  }

  /** A flushed file maps the virtual disk as the open image does. */
  lemma FlushedMapping(g: Geometry, s: Image, k: Ledger, i: nat, j: nat)
    requires Inv(g, s, k) && Settled(g, s)
    ensures DiskEntry(g, s.bytes, i, j) == Entry(g.clusterSize, s.bytes, s.l2, i, j)
  {
    UncachedSame(g.clusterSize, s.bytes, s.l2);
    assert CachedTables.Block(g.clusterSize, s.bytes, Opened(g, s.bytes).l2, i) ==
           CachedTables.Block(g.clusterSize, s.bytes, s.l2, i);
  }

  /** What a flush leaves behind can be opened again. */
  lemma FlushedWellFormed(g: Geometry, s: Image, k: Ledger)
    requires Inv(g, s, k) && k.pending == {} && Settled(g, s) && CoverageOk(g)
    ensures WellFormed(g, s.bytes, ReopenedOwn(k.own)) && Readable(g, s.bytes)
  {
    hide Inv, CoverageOk, DiskL1, DiskRefTable;
    InvShape(g, s, k);
    Reopen(g, s, k);
    OpenedReadable(g, s.bytes, Ledger(ReopenedOwn(k.own), {}, NOTHING_FROZEN));
  }

  lemma OpenedReadable(g: Geometry, b: seq<byte>, k: Ledger)
    requires InFile(g, b) && Inv(g, Opened(g, b), k)
    ensures Readable(g, b)
  {
  }

  /**
   * A flush and a restart: the image opens, shows the same disk, and offers for reuse clusters that
   * nothing used when the flush was done.
   */
  method FlushAndReopen(q: QcowFile) returns (r: QcowFile)
    requires q.Valid()
    modifies q, q.raw, q.refcounts
    ensures fresh(r) && fresh(r.raw) && r.Valid() && q.Valid() && r.g == q.g
    ensures r.Disk() == q.Disk() == old(q.Disk())
    ensures forall a :: a in r.availClusters ==> !(a in q.ledger.own && Live(q.ledger.own[a]))
  {
    hide Inv, JournalOk, CommittedOk, CoverageOk, Contents, Settled, WellFormed, Readable, ZeroCounted;
    q.Flush();
    q.SoundBasics();
    FlushedWellFormed(q.g, q.Snap(), q.ledger);
    Reopen(q.g, q.Snap(), q.ledger);
    var reopened := Open(q.g, q.raw.bytes, ReopenedOwn(q.ledger.own));
    r := reopened.value;
    NoneLive(q.g, q.Snap(), q.ledger, r.availClusters);
  }

  lemma NoneLive(g: Geometry, s: Image, k: Ledger, avail: seq<nat>)
    requires Inv(g, s, k) && k.pending == {} && Settled(g, s)
    requires ZeroCounted(g, s.bytes, Opened(g, s.bytes).rc, |s.bytes|, avail)
    ensures forall a :: a in avail ==> !(a in k.own && Live(k.own[a]))
  {
    Reopen(g, s, k);
  }
}
