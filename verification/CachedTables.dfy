/**
 * A top-level table of cluster addresses whose blocks are partly held in a write-back cache:
 * the L1 table over the L2 tables, and the refcount table over the refcount blocks.
 */
module CachedTables {
  import opened HostBytes
  import opened PointerTables
  import opened Wrappers
  import opened VecCaches

  datatype Kind = Pointers | Counts

  /** Number of entries of a one-cluster block. */
  function PerBlock(kind: Kind, cs: nat): nat {
    if kind.Pointers? then cs / 8 else cs / 2
  }

  predicate Storable(kind: Kind, v: nat) {
    if kind.Pointers? then IsPointer(v) else v < 0x1_0000
  }

  function DecodeBlock(kind: Kind, cs: nat, c: seq<byte>): (t: seq<nat>)
    requires |c| == cs
    ensures |t| == PerBlock(kind, cs)
  {
    if kind.Pointers? then DecodePointers(c, cs / 8, true) else DecodeCounts(c, cs / 2)
  }

  function EncodeBlock(kind: Kind, t: seq<nat>): seq<byte> {
    if kind.Pointers? then EncodePointers(t, true) else EncodeCounts(t)
  }

  /** The clusters a table points to. */
  function Referenced(t: seq<nat>): set<nat> {
    set a | a in t && a != 0
  }

  lemma BlockRoundTrip(kind: Kind, cs: nat, t: seq<nat>)
    requires cs % 8 == 0 && |t| == PerBlock(kind, cs)
    requires forall k :: 0 <= k < |t| ==> Storable(kind, t[k])
    ensures |EncodeBlock(kind, t)| == cs
    ensures DecodeBlock(kind, cs, EncodeBlock(kind, t)) == t
  {
    hide DecodePointers, EncodePointers, DecodeCounts, EncodeCounts, IsPointer;
    if kind.Pointers? {
      PointersRoundTrip(t, true, true);
    } else {
      CountsRoundTrip(t);
    }
  }

  lemma PointerBlockOfZeros(cs: nat)
    requires cs % 8 == 0
    ensures DecodeBlock(Pointers, cs, Zeros(cs)) == ZeroBlock(PerBlock(Pointers, cs))
  {
    hide DecodePointers;
    assert 8 * (cs / 8) == cs;
    PointersOfZeros(cs / 8, true);
  }

  lemma CountBlockOfZeros(cs: nat)
    requires cs % 8 == 0
    ensures DecodeBlock(Counts, cs, Zeros(cs)) == ZeroBlock(PerBlock(Counts, cs))
  {
    hide DecodeCounts;
    assert cs == 8 * (cs / 8) && cs / 2 == 4 * (cs / 8);
    CountsOfZeros(cs / 2);
  }

  lemma BlockOfZeros(kind: Kind, cs: nat)
    requires cs % 8 == 0
    ensures DecodeBlock(kind, cs, Zeros(cs)) == ZeroBlock(PerBlock(kind, cs))
  {
    hide *;
    if kind.Pointers? {
      PointerBlockOfZeros(cs);
    } else {
      CountBlockOfZeros(cs);
    }
  }

  lemma DecodedStorable(kind: Kind, cs: nat, c: seq<byte>)
    requires |c| == cs && cs % 8 == 0
    ensures forall k :: 0 <= k < PerBlock(kind, cs) ==> Storable(kind, DecodeBlock(kind, cs, c)[k])
  {
    if kind.Pointers? {
      MaskedArePointers(c, cs / 8);
    } else {
      CountsFit(c, cs / 2);
    }
  }

  datatype Level = Level(kind: Kind, top: seq<nat>, cache: Cache)

  function Cluster(cs: nat, b: seq<byte>, a: nat): (c: seq<byte>)
    requires a + cs <= |b|
    ensures |c| == cs
  {
    b[a..a + cs]
  }

  /** The block a reader sees: cached, else on disk, else all zero. */
  function Block(cs: nat, b: seq<byte>, lv: Level, i: nat): seq<nat> {
    if i in lv.cache then lv.cache[i].vec
    else if i < |lv.top| && lv.top[i] != 0 && lv.top[i] + cs <= |b|
    then DecodeBlock(lv.kind, cs, Cluster(cs, b, lv.top[i]))
    else ZeroBlock(PerBlock(lv.kind, cs))
  }

  function Entry(cs: nat, b: seq<byte>, lv: Level, i: nat, j: nat): nat {
    var blk := Block(cs, b, lv, i);
    if j < |blk| then blk[j] else 0
  }

  /** A cached block has a home cluster, and differs from it only while it is dirty. */
  ghost predicate CachedOk(cs: nat, b: seq<byte>, lv: Level, i: nat)
    requires i in lv.cache
  {
    && i < |lv.top| && lv.top[i] != 0 && lv.top[i] + cs <= |b|
    && |lv.cache[i].vec| == PerBlock(lv.kind, cs)
    && (forall k :: 0 <= k < |lv.cache[i].vec| ==> Storable(lv.kind, lv.cache[i].vec[k]))
    && (!lv.cache[i].dirty ==> lv.cache[i].vec == DecodeBlock(lv.kind, cs, Cluster(cs, b, lv.top[i])))
  }

  ghost predicate LevelOk(cs: nat, b: seq<byte>, lv: Level) {
    && cs % 8 == 0 && 0 < cs
    && (forall i :: 0 <= i < |lv.top| && lv.top[i] != 0 ==> lv.top[i] % cs == 0 && lv.top[i] + cs <= |b|)
    && (forall i :: i in lv.cache ==> CachedOk(cs, b, lv, i))
    && PlainOk(cs, b, lv)
  }

  predicate IsDirty(c: Cache, i: nat) {
    i in c && c[i].dirty
  }

  /** The cluster can be read as a block: an L2 table must not have compressed entries. */
  predicate Plain(kind: Kind, cs: nat, c: seq<byte>)
    requires |c| == cs
  {
    kind.Pointers? ==> !AnyCompressed(c, cs / 8)
  }

  /** Every block that may have to be read from disk can be read. */
  ghost predicate PlainOk(cs: nat, b: seq<byte>, lv: Level) {
    forall i :: 0 <= i < |lv.top| && lv.top[i] != 0 && lv.top[i] + cs <= |b| && !IsDirty(lv.cache, i) ==>
      Plain(lv.kind, cs, Cluster(cs, b, lv.top[i]))
  }

  lemma EncodedPlain(kind: Kind, cs: nat, t: seq<nat>)
    requires cs % 8 == 0 && |t| == PerBlock(kind, cs)
    requires forall k :: 0 <= k < |t| ==> Storable(kind, t[k])
    ensures |EncodeBlock(kind, t)| == cs && Plain(kind, cs, EncodeBlock(kind, t))
  {
    BlockRoundTrip(kind, cs, t);
    if kind.Pointers? {
      WrittenNotCompressed(t, true);
    }
  }

  lemma ZerosPlain(kind: Kind, cs: nat)
    ensures Plain(kind, cs, Zeros(cs))
  {
    var n := cs / 8;
    PointersOfZeros(n, false);
    DecodePrefix(Zeros(cs), Zeros(8 * n), n);
  }

  lemma HomeInFile(cs: nat, b: seq<byte>, lv: Level, i: nat)
    requires LevelOk(cs, b, lv) && i < |lv.top| && lv.top[i] != 0
    ensures lv.top[i] + cs <= |b|
  {
  }

  lemma HomePlain(cs: nat, b: seq<byte>, lv: Level, i: nat)
    requires LevelOk(cs, b, lv) && i < |lv.top| && lv.top[i] != 0 && lv.kind.Pointers? && !IsDirty(lv.cache, i)
    ensures lv.top[i] + cs <= |b| && !AnyCompressed(Cluster(cs, b, lv.top[i]), cs / 8)
  {
    assert Plain(lv.kind, cs, Cluster(cs, b, lv.top[i]));
  }

  lemma CachedIn(cs: nat, b: seq<byte>, lv: Level, i: nat)
    requires LevelOk(cs, b, lv) && i in lv.cache
    ensures CachedOk(cs, b, lv, i)
  {
  }

  lemma CachedHome(cs: nat, b: seq<byte>, lv: Level, i: nat)
    requires cs % 8 == 0 && i in lv.cache && CachedOk(cs, b, lv, i)
    ensures i < |lv.top| && lv.top[i] != 0 && lv.top[i] + cs <= |b|
    ensures |EncodeBlock(lv.kind, lv.cache[i].vec)| == cs
    ensures if lv.kind.Pointers? then 8 * |lv.cache[i].vec| == cs else 2 * |lv.cache[i].vec| == cs
  {
    BlockRoundTrip(lv.kind, cs, lv.cache[i].vec);
  }

  /** Every block, and so every lookup, is the same. */
  ghost predicate SameBlocks(cs: nat, b: seq<byte>, lv: Level, b': seq<byte>, lv': Level) {
    forall i: nat :: Block(cs, b', lv', i) == Block(cs, b, lv, i)
  }

  /** Every cluster of `b` outside `xs` is unchanged in `b'`, which may be longer. */
  ghost predicate SameClusters(cs: nat, b: seq<byte>, b': seq<byte>, xs: set<nat>)
    requires 0 < cs
  {
    && |b| <= |b'|
    && (forall a: nat :: a % cs == 0 && a + cs <= |b| && a !in xs ==> Cluster(cs, b', a) == Cluster(cs, b, a))
  }

  lemma AlignedApart(cs: nat, a: nat, b: nat)
    requires 0 < cs && a % cs == 0 && b % cs == 0 && a != b
    ensures a + cs <= b || b + cs <= a
  {
    var qa, qb := a / cs, b / cs;
    assert a == cs * qa && b == cs * qb;
    if qa < qb {
      assert cs * (qa + 1) <= cs * qb;
    } else {
      assert qb < qa;
      assert cs * (qb + 1) <= cs * qa;
    }
  }

  /** Overwriting part of one cluster changes no other cluster. */
  lemma SpliceInCluster(cs: nat, b: seq<byte>, x: nat, off: nat, d: seq<byte>)
    requires 0 < cs && x % cs == 0 && x <= off && off + |d| <= x + cs && off + |d| <= |b|
    ensures SameClusters(cs, b, Splice(b, off, d), {x})
  {
    forall a: nat | a % cs == 0 && a + cs <= |b| && a !in {x}
      ensures Cluster(cs, Splice(b, off, d), a) == Cluster(cs, b, a)
    {
      AlignedApart(cs, a, x);
      SpliceApart(b, off, d, a, a + cs);
    }
  }

  lemma SameBlocksRefl(cs: nat, b: seq<byte>, lv: Level)
    ensures SameBlocks(cs, b, lv, b, lv) && SameOutside(cs, b, b, lv.top)
  {
  }

  /** Byte `p` is in none of the clusters the table points to. */
  predicate Outside(cs: nat, top: seq<nat>, p: nat) {
    forall i :: 0 <= i < |top| && top[i] != 0 ==> p < top[i] || top[i] + cs <= p
  }

  /** Every byte outside the clusters the table points to is unchanged. */
  ghost predicate SameOutside(cs: nat, b: seq<byte>, b': seq<byte>, top: seq<nat>) {
    && |b'| == |b|
    && (forall p :: 0 <= p < |b| && Outside(cs, top, p) ==> b'[p] == b[p])
  }

  lemma SameOutsideTrans(cs: nat, b0: seq<byte>, b1: seq<byte>, b2: seq<byte>, top: seq<nat>)
    requires SameOutside(cs, b0, b1, top) && SameOutside(cs, b1, b2, top)
    ensures SameOutside(cs, b0, b2, top)
  {
  }

  lemma SpliceOutside(cs: nat, b: seq<byte>, top: seq<nat>, i: nat, d: seq<byte>)
    requires i < |top| && top[i] != 0 && |d| == cs && top[i] + cs <= |b|
    ensures SameOutside(cs, b, Splice(b, top[i], d), top)
  {
    forall p | 0 <= p < |b| && Outside(cs, top, p)
      ensures Splice(b, top[i], d)[p] == b[p]
    {
      assert p < top[i] || top[i] + cs <= p;
      SpliceAt(b, top[i], d, p);
    }
  }

  lemma SameBlocksTrans(cs: nat, b0: seq<byte>, l0: Level, b1: seq<byte>, l1: Level, b2: seq<byte>, l2: Level)
    requires SameBlocks(cs, b0, l0, b1, l1) && SameBlocks(cs, b1, l1, b2, l2)
    ensures SameBlocks(cs, b0, l0, b2, l2)
  {
    forall i: nat
      ensures Block(cs, b2, l2, i) == Block(cs, b0, l0, i)
    {
      assert Block(cs, b1, l1, i) == Block(cs, b0, l0, i);
    }
  }

  /** A level is unaffected by changes outside its own block clusters. */
  lemma LevelFrame(cs: nat, b: seq<byte>, b': seq<byte>, lv: Level, xs: set<nat>)
    requires LevelOk(cs, b, lv) && SameClusters(cs, b, b', xs)
    requires forall i :: 0 <= i < |lv.top| && lv.top[i] != 0 ==> lv.top[i] !in xs
    ensures LevelOk(cs, b', lv) && SameBlocks(cs, b, lv, b', lv)
  {
    forall i | i in lv.cache
      ensures CachedOk(cs, b', lv, i)
    {
      assert CachedOk(cs, b, lv, i);
    }
  }

  /** Reading a block into the cache changes no lookup. */
  lemma LoadKeeps(cs: nat, b: seq<byte>, lv: Level, i: nat)
    requires LevelOk(cs, b, lv) && i < |lv.top| && lv.top[i] != 0 && i !in lv.cache
    ensures var block := VecCache(DecodeBlock(lv.kind, cs, Cluster(cs, b, lv.top[i])), false);
            var lv' := lv.(cache := lv.cache[i := block]);
            LevelOk(cs, b, lv') && SameBlocks(cs, b, lv, b, lv')
  {
    DecodedStorable(lv.kind, cs, Cluster(cs, b, lv.top[i]));
    var block := VecCache(DecodeBlock(lv.kind, cs, Cluster(cs, b, lv.top[i])), false);
    var lv' := lv.(cache := lv.cache[i := block]);
    forall k | k in lv'.cache
      ensures CachedOk(cs, b, lv', k)
    {
      if k != i { assert CachedOk(cs, b, lv, k); }
    }
  }

  /** The host file after a cached block leaves the cache: a dirty block is written back first. */
  function WrittenBack(cs: nat, b: seq<byte>, lv: Level, e: nat): seq<byte>
    requires e in lv.cache && CachedOk(cs, b, lv, e) && cs % 8 == 0
  {
    BlockRoundTrip(lv.kind, cs, lv.cache[e].vec);
    if lv.cache[e].dirty then Splice(b, lv.top[e], EncodeBlock(lv.kind, lv.cache[e].vec)) else b
  }

  /** No two entries point to the same cluster. */
  ghost predicate DistinctTops(top: seq<nat>) {
    forall i, j :: 0 <= i < |top| && 0 <= j < |top| && i != j && top[i] != 0 ==> top[i] != top[j]
  }

  /** After write-back the home cluster of a block holds the block; nothing else changed. */
  lemma WriteBackKeeps(cs: nat, b: seq<byte>, lv: Level, e: nat)
    requires LevelOk(cs, b, lv) && DistinctTops(lv.top) && e in lv.cache
    requires CachedOk(cs, b, lv, e)
    ensures var b' := WrittenBack(cs, b, lv, e);
            && |b'| == |b|
            && SameClusters(cs, b, b', if lv.cache[e].dirty then {lv.top[e]} else {})
            && DecodeBlock(lv.kind, cs, Cluster(cs, b', lv.top[e])) == lv.cache[e].vec
            && (forall i :: i in lv.cache && i != e ==> CachedOk(cs, b', lv, i))
            && SameBlocks(cs, b, lv, b', lv)
            && PlainOk(cs, b', lv.(cache := lv.cache - {e}))
  {
    hide Plain, DecodeBlock, EncodeBlock, Storable, AnyCompressed;
    EncodedPlain(lv.kind, cs, lv.cache[e].vec);
    BlockRoundTrip(lv.kind, cs, lv.cache[e].vec);
    var b' := WrittenBack(cs, b, lv, e);
    var d := EncodeBlock(lv.kind, lv.cache[e].vec);
    if lv.cache[e].dirty {
      SpliceInCluster(cs, b, lv.top[e], lv.top[e], d);
      assert Cluster(cs, b', lv.top[e]) == d;
    }
    forall i | i in lv.cache && i != e
      ensures CachedOk(cs, b', lv, i)
    {
      assert CachedOk(cs, b, lv, i);
    }
  }

  /** Evicting a block, any block, changes no lookup. */
  lemma EvictKeeps(cs: nat, b: seq<byte>, lv: Level, e: nat)
    requires LevelOk(cs, b, lv) && DistinctTops(lv.top) && e in lv.cache
    requires CachedOk(cs, b, lv, e)
    ensures var b' := WrittenBack(cs, b, lv, e);
            var lv' := lv.(cache := lv.cache - {e});
            LevelOk(cs, b', lv') && SameBlocks(cs, b, lv, b', lv')
  {
    hide Plain, DecodeBlock, Storable;
    WriteBackKeeps(cs, b, lv, e);
    var b' := WrittenBack(cs, b, lv, e);
    var lv' := lv.(cache := lv.cache - {e});
    forall i | i in lv'.cache
      ensures CachedOk(cs, b', lv', i)
    {
      assert CachedOk(cs, b', lv, i);
    }
    forall i: nat
      ensures Block(cs, b', lv', i) == Block(cs, b, lv, i)
    {
      assert Block(cs, b', lv, i) == Block(cs, b, lv, i);
    }
  }

  /** Marking a block clean after writing it changes no lookup. */
  lemma CleanKeeps(cs: nat, b: seq<byte>, lv: Level, e: nat)
    requires LevelOk(cs, b, lv) && DistinctTops(lv.top) && e in lv.cache
    requires CachedOk(cs, b, lv, e)
    ensures var b' := WrittenBack(cs, b, lv, e);
            var lv' := lv.(cache := lv.cache[e := lv.cache[e].MarkClean()]);
            LevelOk(cs, b', lv') && SameBlocks(cs, b, lv, b', lv')
  {
    hide Plain, DecodeBlock, Storable;
    WriteBackKeeps(cs, b, lv, e);
    var b' := WrittenBack(cs, b, lv, e);
    var lv' := lv.(cache := lv.cache[e := lv.cache[e].MarkClean()]);
    forall i | i in lv'.cache
      ensures CachedOk(cs, b', lv', i)
    {
      if i != e { assert CachedOk(cs, b', lv, i); }
    }
    assert PlainOk(cs, b', lv') by {
      assert forall i :: IsDirty(lv'.cache, i) == IsDirty(lv.cache - {e}, i);
    }
    forall i: nat
      ensures Block(cs, b', lv', i) == Block(cs, b, lv, i)
    {
      assert Block(cs, b', lv, i) == Block(cs, b, lv, i);
    }
  }

  /** The cache after block `t` came in, with `e` written back and gone if one had to leave. */
  function Swapped(lv: Level, e: Option<nat>, t: nat, block: VecCache): Level {
    lv.(cache := (if e.Some? then lv.cache - {e.value} else lv.cache)[t := block])
  }

  function SwappedBytes(cs: nat, b: seq<byte>, lv: Level, e: Option<nat>): seq<byte>
    requires cs % 8 == 0 && (e.Some? ==> e.value in lv.cache && CachedOk(cs, b, lv, e.value))
  {
    if e.Some? then WrittenBack(cs, b, lv, e.value) else b
  }

  lemma SwappedNone(cs: nat, b: seq<byte>, lv: Level)
    requires cs % 8 == 0
    ensures SwappedBytes(cs, b, lv, None) == b
  {
  }

  lemma SwappedLength(cs: nat, b: seq<byte>, lv: Level, e: Option<nat>)
    requires cs % 8 == 0 && (e.Some? ==> e.value in lv.cache && CachedOk(cs, b, lv, e.value))
    ensures |SwappedBytes(cs, b, lv, e)| == |b|
  {
  }
}
