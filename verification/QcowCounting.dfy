/** What setting a reference count does to an open image, transition by transition. */
module QcowCounting {
  import opened Arithmetic
  import opened HostBytes
  import opened Wrappers
  import opened VecCaches
  import opened CachedTables
  import opened QcowImage
  import opened QcowSteps
  import opened RefCounts

  /**
   * Work on reference counts in the background: clusters come from the free list or the end of the
   * file, refcount blocks move, and nothing else changes.
   */
  ghost predicate Untouched(g: Geometry, s: Image, k: Ledger, s': Image, k': Ledger, but: set<nat>)
    requires 8 <= g.clusterSize
  {
    && s'.l2 == s.l2 && s'.unref == s.unref && k'.frozen == k.frozen
    && |s.bytes| <= |s'.bytes| && SameAreas(g, s.bytes, s'.bytes)
    && Contents(g, s'.bytes, s'.l2) == Contents(g, s.bytes, s.l2)
    && SameUses(g, s.bytes, k.own, s'.bytes, k'.own, but)
  }

  /** Clusters outside `but` that are neither free nor refcount blocks keep role and content. */
  ghost predicate SameUses(g: Geometry, b: seq<byte>, own: map<nat, Role>, b': seq<byte>, own': map<nat, Role>,
                           but: set<nat>)
  {
    && (forall a :: a in own && !own[a].Avail? ==> a in own' && !own'[a].Avail?)
    && (forall a :: a in own && a !in but && !own[a].Avail? && !own[a].RefBlock? ==>
          && own'[a] == own[a]
          && (!own[a].Fixed? ==>
                a + g.clusterSize <= |b| && a + g.clusterSize <= |b'|
                && Cluster(g.clusterSize, b', a) == Cluster(g.clusterSize, b, a)))
  }

  /** Working on in between with a cluster `x` that was free, or not there, to begin with. */
  lemma UntouchedVia(g: Geometry, s0: Image, k0: Ledger, s1: Image, k1: Ledger, s2: Image, k2: Ledger, but: set<nat>)
    requires 8 <= g.clusterSize
    requires Untouched(g, s0, k0, s1, k1, {}) && Untouched(g, s1, k1, s2, k2, but)
    requires forall x :: x in but && x in k0.own ==> k0.own[x].Avail?
    ensures Untouched(g, s0, k0, s2, k2, {})
  {
  }

  // Loading the block the count is in.

  function RcSwapped(g: Geometry, s: Image, e: Option<nat>, t: nat): Image
    requires g.clusterSize % 8 == 0 && t < |s.rc.top| && s.rc.top[t] + g.clusterSize <= |s.bytes|
    requires e.Some? ==> e.value in s.rc.cache && CachedOk(g.clusterSize, s.bytes, s.rc, e.value)
  {
    var block := VecCache(DecodeBlock(s.rc.kind, g.clusterSize, Cluster(g.clusterSize, s.bytes, s.rc.top[t])), false);
    s.(bytes := SwappedBytes(g.clusterSize, s.bytes, s.rc, e), rc := Swapped(s.rc, e, t, block))
  }

  lemma SwapRc(g: Geometry, s: Image, k: Ledger, e: Option<nat>, t: nat)
    requires Inv(g, s, k) && t < |s.rc.top| && s.rc.top[t] != 0 && t !in s.rc.cache
    requires e.Some? ==> e.value in s.rc.cache
    ensures e.Some? ==> CachedOk(g.clusterSize, s.bytes, s.rc, e.value)
    ensures Inv(g, RcSwapped(g, s, e, t), k) && Quiet(g, s, RcSwapped(g, s, e, t))
    ensures Untouched(g, s, k, RcSwapped(g, s, e, t), k, {})
  {
    hide Inv, Contents, SameBlocks, SameAreas, SameUses, CachedOk, DecodeBlock, Plain;
    InvShape(g, s, k);
    if e.Some? {
      RcRole(g, s, k, e.value);
      TopsDistinct(g, s, k);
      EvictRc(g, s, k, e.value);
      var s1 := RcEvicted(g, s, e.value);
      LoadRc(g, s1, k, t);
      assert RcSwapped(g, s, e, t) == RcLoaded(g, s1, t);
      UsesApart(g, s, k, s1.bytes, {s.rc.top[e.value]});
      QuietTrans(g, s, s1, RcSwapped(g, s, e, t));
    } else {
      LoadRc(g, s, k, t);
      assert RcSwapped(g, s, e, t) == RcLoaded(g, s, t);
      UsesApart(g, s, k, s.bytes, {});
    }
  }

  lemma QuietTrans(g: Geometry, s0: Image, s1: Image, s2: Image)
    requires 8 <= g.clusterSize && Quiet(g, s0, s1) && Quiet(g, s1, s2)
    ensures Quiet(g, s0, s2)
  {
    SameBlocksTrans(g.clusterSize, s0.bytes, s0.l2, s1.bytes, s1.l2, s2.bytes, s2.l2);
    SameBlocksTrans(g.clusterSize, s0.bytes, s0.rc, s1.bytes, s1.rc, s2.bytes, s2.rc);
  }

  /** Changing only refcount blocks and free clusters keeps every other use. */
  lemma UsesApart(g: Geometry, s: Image, k: Ledger, b': seq<byte>, xs: set<nat>)
    requires Inv(g, s, k) && SameClusters(g.clusterSize, s.bytes, b', xs)
    requires forall x :: x in xs && x in k.own ==> k.own[x].RefBlock? || k.own[x].Avail?
    ensures SameUses(g, s.bytes, k.own, b', k.own, {})
  {
  }

  // The three ways a count is set.

  lemma SlotInBlock(g: Geometry, s: Image, k: Ledger, a: nat)
    requires Inv(g, s, k) && CoverageOk(g) && a in k.own
    ensures RefIndex(g, a).0 < |s.rc.top| && RefIndex(g, a).1 < g.clusterSize / 2
    ensures RefIndex(g, a).0 in s.rc.cache ==> |s.rc.cache[RefIndex(g, a).0].vec| == g.clusterSize / 2
  {
    SlotExists(g, a);
    var t := RefIndex(g, a).0;
    assert t in s.rc.cache ==> CachedOk(g.clusterSize, s.bytes, s.rc, t);
  }

  function Paid(pending: set<nat>, a: nat, c: nat): set<nat> {
    if c == 0 then pending + {a} else pending - {a}
  }

  /** Every count but those of `a` and of the new blocks is as before. */
  ghost predicate CountsBut(g: Geometry, s: Image, s': Image, a: nat, c: nat)
    requires 2 <= g.clusterSize
  {
    forall a': nat :: a' % g.clusterSize == 0 ==>
      Count(g, s'.bytes, s'.rc, a') == if a' == a then c else Count(g, s.bytes, s.rc, a')
  }

  lemma OwnedAligned(g: Geometry, s: Image, k: Ledger, a: nat)
    requires Inv(g, s, k) && a in k.own
    ensures a % g.clusterSize == 0 && a < |s.bytes| && a + g.clusterSize <= g.limit
  {
  }

  /** The block is cached and dirty already. */
  lemma SetInDirty(g: Geometry, s: Image, k: Ledger, a: nat, c: nat)
    requires Inv(g, s, k) && CoverageOk(g) && a in k.own && c < 0x1_0000
    requires IsDirty(s.rc.cache, RefIndex(g, a).0)
    ensures RefIndex(g, a).1 < |s.rc.cache[RefIndex(g, a).0].vec|
    ensures Inv(g, CountSet(g, s, a, c), k.(pending := Paid(k.pending, a, c)))
    ensures CountsBut(g, s, CountSet(g, s, a, c), a, c)
    ensures Untouched(g, s, k, CountSet(g, s, a, c), k, {})
  {
    hide Inv, SameUses, Contents, SameAreas, LevelOk, RefIndex, Count;
    InvShape(g, s, k);
    AreasSelf(g, s, k);
    OwnedAligned(g, s, k, a);
    SlotInBlock(g, s, k, a);
    SetCount(g, s, k, a, c);
    UsesApart(g, s, k, s.bytes, {});
  }

  /** The block is cached and clean: it moves to the new cluster `x`. */
  function MovedAndSet(g: Geometry, s: Image, x: nat, a: nat, c: nat): Image
    requires 2 <= g.clusterSize && RefIndex(g, a).0 in s.rc.cache && RefIndex(g, a).0 < |s.rc.top|
    requires RefIndex(g, a).1 < |s.rc.cache[RefIndex(g, a).0].vec|
  {
    var (t, n) := RefIndex(g, a);
    s.(rc := s.rc.(top := s.rc.top[t := x], cache := s.rc.cache[t := s.rc.cache[t].Set(n, c)]))
  }

  lemma SetInMoved(g: Geometry, s: Image, k: Ledger, x: nat, a: nat, c: nat)
    requires Inv(g, s, k) && CoverageOk(g) && a in k.own && c < 0x1_0000
    requires RefIndex(g, a).0 in s.rc.cache && !s.rc.cache[RefIndex(g, a).0].dirty
    requires x in k.own && k.own[x] == Held
    ensures var (t, n) := RefIndex(g, a);
            && t < |s.rc.top| && n < |s.rc.cache[t].vec| && s.rc.top[t] in k.own && k.own[s.rc.top[t]] == RefBlock(t)
            && Inv(g, MovedAndSet(g, s, x, a, c),
                   k.(own := k.own[s.rc.top[t] := Dropped][x := RefBlock(t)],
                      pending := Paid(k.pending + {x}, a, c)))
            && CountsBut(g, s, MovedAndSet(g, s, x, a, c), a, c)
            && Untouched(g, s, k, MovedAndSet(g, s, x, a, c),
                         k.(own := k.own[s.rc.top[t] := Dropped][x := RefBlock(t)]), {x})
  {
    hide Inv, CoverageOk, Contents, SameBlocks, SameUses, CountsBut, SameAreas, CachedOk, LevelOk;
    InvShape(g, s, k);
    var (t, n) := RefIndex(g, a);
    SlotInBlock(g, s, k, a);
    MoveRc(g, s, k, t, x);
    var s1, own1 := RcMoved(s, t, x), k.own[s.rc.top[t] := Dropped][x := RefBlock(t)];
    var k1 := k.(own := own1, pending := k.pending + {x});
    SetInDirty(g, s1, k1, a, c);
    UpdateTwice(s.rc.cache, t, VecCache(s.rc.cache[t].vec, true), s.rc.cache[t].Set(n, c));
    assert CountSet(g, s1, a, c) == MovedAndSet(g, s, x, a, c);
    CountsVia(g, s, s1, MovedAndSet(g, s, x, a, c), a, c);
    MoveUses(g, s, k, x, t);
  }

  lemma MoveUses(g: Geometry, s: Image, k: Ledger, x: nat, t: nat)
    requires Inv(g, s, k) && t < |s.rc.top| && s.rc.top[t] in k.own && k.own[s.rc.top[t]].RefBlock?
    ensures SameUses(g, s.bytes, k.own, s.bytes, k.own[s.rc.top[t] := Dropped][x := RefBlock(t)], {x})
  {
    UsesApart(g, s, k, s.bytes, {});
  }

  /** Counts carry over a step that changes no block. */
  lemma CountsVia(g: Geometry, s: Image, s1: Image, s2: Image, a: nat, c: nat)
    requires 2 <= g.clusterSize
    requires SameBlocks(g.clusterSize, s.bytes, s.rc, s1.bytes, s1.rc) && CountsBut(g, s1, s2, a, c)
    ensures CountsBut(g, s, s2, a, c)
  {
    hide SameBlocks, Count;
    forall a': nat | a' % g.clusterSize == 0
      ensures Count(g, s2.bytes, s2.rc, a') == if a' == a then c else Count(g, s.bytes, s.rc, a')
    {
      SameCount(g, s.bytes, s.rc, s1.bytes, s1.rc, a');
    }
  }

  /** There is no block yet: the new cluster `x` becomes one. */
  function AddedAndSet(g: Geometry, s: Image, e: Option<nat>, x: nat, a: nat, c: nat): Image
    requires g.clusterSize % 8 == 0 && 2 <= g.clusterSize && RefIndex(g, a).0 < |s.rc.top|
    requires RefIndex(g, a).1 < g.clusterSize / 2
    requires e.Some? ==> e.value in s.rc.cache && CachedOk(g.clusterSize, s.bytes, s.rc, e.value)
  {
    var (t, n) := RefIndex(g, a);
    s.(bytes := SwappedBytes(g.clusterSize, s.bytes, s.rc, e),
       rc := Swapped(s.rc, e, t, NewBlock(g.clusterSize / 2).Set(n, c)).(top := s.rc.top[t := x]))
  }

  /** A new block enters the cache, with or without eviction, before the count is set in it. */
  function Added(g: Geometry, s: Image, e: Option<nat>, x: nat, t: nat): Image
    requires g.clusterSize % 8 == 0 && t < |s.rc.top|
    requires e.Some? ==> e.value in s.rc.cache && CachedOk(g.clusterSize, s.bytes, s.rc, e.value)
  {
    s.(bytes := SwappedBytes(g.clusterSize, s.bytes, s.rc, e),
       rc := Swapped(s.rc, e, t, NewBlock(g.clusterSize / 2)).(top := s.rc.top[t := x]))
  }

  lemma AddBlock(g: Geometry, s: Image, k: Ledger, e: Option<nat>, x: nat, t: nat)
    requires Inv(g, s, k) && t < |s.rc.top| && s.rc.top[t] == 0
    requires e.Some? ==> e.value in s.rc.cache
    requires x in k.own && k.own[x] == Held && x + g.clusterSize <= |s.bytes|
    requires Cluster(g.clusterSize, s.bytes, x) == Zeros(g.clusterSize)
    ensures e.Some? ==> CachedOk(g.clusterSize, s.bytes, s.rc, e.value)
    ensures t !in s.rc.cache
    ensures Inv(g, Added(g, s, e, x, t), k.(own := k.own[x := RefBlock(t)], pending := k.pending + {x}))
    ensures Quiet(g, s, Added(g, s, e, x, t))
  {
    var k1 := k.(own := k.own[x := RefBlock(t)], pending := k.pending + {x});
    LinkRc(g, s, k, t, x);
    var s1 := RcLinked(s, t, x);
    var s' := Added(g, s, e, x, t);
    if e.Some? {
      assert CachedOk(g.clusterSize, s.bytes, s.rc, e.value);
      EvictRc(g, s1, k1, e.value);
      var s2 := RcEvicted(g, s1, e.value);
      assert Cluster(g.clusterSize, s2.bytes, x) == Zeros(g.clusterSize);
      FreshRc(g, s2, k1, t);
      assert s' == RcFresh(g, s2, t);
      hide Inv;
      QuietTrans(g, s, s1, s2);
      QuietTrans(g, s, s2, s');
    } else {
      FreshRc(g, s1, k1, t);
      assert s' == RcFresh(g, s1, t);
      hide Inv;
      QuietTrans(g, s, s1, s');
    }
  }

  lemma SetInAdded(g: Geometry, s: Image, k: Ledger, e: Option<nat>, x: nat, a: nat, c: nat)
    requires Inv(g, s, k) && CoverageOk(g) && a in k.own && c < 0x1_0000
    requires RefIndex(g, a).0 < |s.rc.top| && s.rc.top[RefIndex(g, a).0] == 0
    requires e.Some? ==> e.value in s.rc.cache
    requires x in k.own && k.own[x] == Held && x + g.clusterSize <= |s.bytes|
    requires Cluster(g.clusterSize, s.bytes, x) == Zeros(g.clusterSize)
    ensures e.Some? ==> CachedOk(g.clusterSize, s.bytes, s.rc, e.value)
    ensures RefIndex(g, a).1 < g.clusterSize / 2
    ensures Inv(g, AddedAndSet(g, s, e, x, a, c),
                k.(own := k.own[x := RefBlock(RefIndex(g, a).0)], pending := Paid(k.pending + {x}, a, c)))
    ensures CountsBut(g, s, AddedAndSet(g, s, e, x, a, c), a, c)
    ensures Untouched(g, s, k, AddedAndSet(g, s, e, x, a, c), k.(own := k.own[x := RefBlock(RefIndex(g, a).0)]), {x})
  {
    hide Inv, CoverageOk, Contents, SameBlocks, SameUses, CountsBut, SameAreas, CachedOk, LevelOk, WrittenBack;
    InvShape(g, s, k);
    var (t, n) := RefIndex(g, a);
    SlotInBlock(g, s, k, a);
    AddBlock(g, s, k, e, x, t);
    var s1 := Added(g, s, e, x, t);
    var k1 := k.(own := k.own[x := RefBlock(t)], pending := k.pending + {x});
    SetInDirty(g, s1, k1, a, c);
    UpdateTwice(if e.Some? then s.rc.cache - {e.value} else s.rc.cache, t,
                NewBlock(g.clusterSize / 2), NewBlock(g.clusterSize / 2).Set(n, c));
    assert CountSet(g, s1, a, c) == AddedAndSet(g, s, e, x, a, c);
    AddUses(g, s, k, e, x, t);
    SameLength(g, s, e);
    CountsVia(g, s, s1, AddedAndSet(g, s, e, x, a, c), a, c);
  }

  lemma AddUses(g: Geometry, s: Image, k: Ledger, e: Option<nat>, x: nat, t: nat)
    requires Inv(g, s, k)
    requires e.Some? ==> e.value in s.rc.cache && CachedOk(g.clusterSize, s.bytes, s.rc, e.value)
    ensures SameUses(g, s.bytes, k.own, SwappedBytes(g.clusterSize, s.bytes, s.rc, e), k.own[x := RefBlock(t)], {x})
  {
    if e.Some? {
      WriteBackRc(g, s, k, e.value);
      UsesApart(g, s, k, SwappedBytes(g.clusterSize, s.bytes, s.rc, e), {s.rc.top[e.value]});
    } else {
      UsesApart(g, s, k, s.bytes, {});
    }
  }

  // One attempt to set a count, with what it needs at hand.

  /** The cluster handed to an attempt: none, the block the count is in, or a new zeroed one. */
  ghost predicate Supplied(g: Geometry, s: Image, k: Ledger, a: nat, nc: Option<(nat, VecCache)>)
    requires 2 <= g.clusterSize
  {
    nc.None? || SuppliedBlock(g, s, a, nc) || SuppliedNew(g, s, k, a, nc)
  }

  ghost predicate SuppliedBlock(g: Geometry, s: Image, a: nat, nc: Option<(nat, VecCache)>)
    requires 2 <= g.clusterSize
  {
    var t := RefIndex(g, a).0;
    && nc.Some? && t < |s.rc.top| && t !in s.rc.cache && s.rc.top[t] != 0
    && s.rc.top[t] + g.clusterSize <= |s.bytes|
    && nc.value == (s.rc.top[t],
                    VecCache(DecodeBlock(s.rc.kind, g.clusterSize, Cluster(g.clusterSize, s.bytes, s.rc.top[t])),
                             false))
  }

  ghost predicate SuppliedNew(g: Geometry, s: Image, k: Ledger, a: nat, nc: Option<(nat, VecCache)>)
    requires 2 <= g.clusterSize
  {
    && nc.Some? && WantsCluster(g, s, a)
    && nc.value.0 in k.own && k.own[nc.value.0] == Held
    && nc.value.0 + g.clusterSize <= |s.bytes|
    && Cluster(g.clusterSize, s.bytes, nc.value.0) == Zeros(g.clusterSize)
    && nc.value.1 == NewBlock(g.clusterSize / 2)
  }

  /** The block the count is in does not exist, or is clean and must not be written in place. */
  ghost predicate WantsCluster(g: Geometry, s: Image, a: nat)
    requires 2 <= g.clusterSize
  {
    var t := RefIndex(g, a).0;
    && t < |s.rc.top|
    && if t in s.rc.cache then !s.rc.cache[t].dirty else s.rc.top[t] == 0
  }

  /** The ledger after an attempt. */
  function AttemptLedger(g: Geometry, s: Image, k: Ledger, a: nat, c: nat, nc: Option<(nat, VecCache)>,
                         r: SetResult): Ledger
    requires 2 <= g.clusterSize && (r.Done? ==> RefIndex(g, a).0 < |s.rc.top|)
  {
    if !r.Done? then k
    else if nc.None? then k.(pending := Paid(k.pending, a, c))
    else
      var t, x := RefIndex(g, a).0, nc.value.0;
      var own' := if r.dropped.Some? then k.own[s.rc.top[t] := Dropped] else k.own;
      k.(own := own'[x := RefBlock(t)], pending := Paid(k.pending + {x}, a, c))
  }

  /** What an attempt comes to. */
  ghost predicate Attempted(g: Geometry, s: Image, k: Ledger, a: nat, c: nat, nc: Option<(nat, VecCache)>,
                            s': Image, k': Ledger, r: SetResult)
    requires 8 <= g.clusterSize
  {
    && Inv(g, s', k')
    && s'.avail == s.avail && |s'.bytes| == |s.bytes|
    && Untouched(g, s, k, s', k', if nc.Some? && r.Done? then {nc.value.0} else {})
    && (IsDirty(s.rc.cache, RefIndex(g, a).0) ==> r.Done?)
    && match r
       case InvalidIndex => false
       case NeedCluster(addr) =>
         && s' == s && k' == k && nc.None?
         && var t := RefIndex(g, a).0; t < |s.rc.top| && t !in s.rc.cache && addr == s.rc.top[t] != 0
       case NeedNewCluster =>
         && k' == k && Quiet(g, s, s') && !SuppliedNew(g, s, k, a, nc) && WantsCluster(g, s', a)
       case Done(dropped) =>
         && CountsBut(g, s, s', a, c) && IsDirty(s'.rc.cache, RefIndex(g, a).0)
         && k'.pending == Paid(if nc.Some? then k.pending + {nc.value.0} else k.pending, a, c)
         && !SuppliedBlock(g, s, a, nc)
         && (nc.Some? ==> nc.value.0 in k'.own && k'.own[nc.value.0].RefBlock?)
         && FreedOk(k.own, k'.own, if dropped.Some? then [dropped.value] else [])
  }

  lemma AttemptHolds(g: Geometry, s: Image, k: Ledger, a: nat, c: nat, nc: Option<(nat, VecCache)>,
                     e: Option<nat>, s': Image, r: SetResult)
    requires Inv(g, s, k) && CoverageOk(g) && a in k.own && c < 0x1_0000
    requires Supplied(g, s, k, a, nc)
    requires SetEffect(g.clusterSize, s.bytes, s.rc, s'.bytes, s'.rc, RefIndex(g, a).0, RefIndex(g, a).1, c, nc, e, r)
    requires s' == s.(bytes := s'.bytes, rc := s'.rc)
    ensures r.Done? ==> RefIndex(g, a).0 < |s.rc.top|
    ensures Attempted(g, s, k, a, c, nc, s', AttemptLedger(g, s, k, a, c, nc, r), r)
  {
    hide Inv, CoverageOk, Contents, SameBlocks, SameUses, CountsBut, SameAreas, CachedOk, WrittenBack, LevelOk;
    InvShape(g, s, k);
    var (t, n) := RefIndex(g, a);
    SlotInBlock(g, s, k, a);
    if t !in s.rc.cache && nc.None? {
      UntouchedSelf(g, s, k);
    } else if t !in s.rc.cache && SuppliedBlock(g, s, a, nc) {
      AttemptLoads(g, s, k, a, c, nc, e, s', r);
    } else if t !in s.rc.cache {
      SetInAdded(g, s, k, e, nc.value.0, a, c);
      assert s' == AddedAndSet(g, s, e, nc.value.0, a, c);
      SameLength(g, s, e);
    } else if s.rc.cache[t].dirty {
      SetInDirty(g, s, k, a, c);
      assert s' == CountSet(g, s, a, c);
    } else if nc.Some? {
      SetInMoved(g, s, k, nc.value.0, a, c);
      assert s' == MovedAndSet(g, s, nc.value.0, a, c);
    } else {
      UntouchedSelf(g, s, k);
    }
  }

  lemma AttemptedKeeps(g: Geometry, s: Image, k: Ledger, a: nat, c: nat, nc: Option<(nat, VecCache)>,
                       s': Image, k': Ledger, r: SetResult)
    requires 8 <= g.clusterSize && Attempted(g, s, k, a, c, nc, s', k', r)
    ensures Inv(g, s', k') && SameAreas(g, s.bytes, s'.bytes) && k'.frozen == k.frozen
  {
    hide Inv;
  }

  /** A cluster in use always has a refcount slot. */
  lemma AttemptedIndex(g: Geometry, s: Image, k: Ledger, a: nat, c: nat, nc: Option<(nat, VecCache)>,
                       s': Image, k': Ledger, r: SetResult)
    requires 8 <= g.clusterSize && Attempted(g, s, k, a, c, nc, s', k', r)
    ensures !r.InvalidIndex?
  {
    hide Inv;
  }

  lemma SuppliedSize(g: Geometry, s: Image, k: Ledger, a: nat, nc: Option<(nat, VecCache)>)
    requires Inv(g, s, k) && Supplied(g, s, k, a, nc)
    ensures nc.Some? ==> |nc.value.1.vec| == g.clusterSize / 2
  {
  }

  lemma SameLength(g: Geometry, s: Image, e: Option<nat>)
    requires g.clusterSize % 8 == 0
    requires e.Some? ==> e.value in s.rc.cache && CachedOk(g.clusterSize, s.bytes, s.rc, e.value)
    ensures |SwappedBytes(g.clusterSize, s.bytes, s.rc, e)| == |s.bytes|
  {
  }

  lemma AttemptLoads(g: Geometry, s: Image, k: Ledger, a: nat, c: nat, nc: Option<(nat, VecCache)>,
                     e: Option<nat>, s': Image, r: SetResult)
    requires Inv(g, s, k) && SuppliedBlock(g, s, a, nc)
    requires SetEffect(g.clusterSize, s.bytes, s.rc, s'.bytes, s'.rc, RefIndex(g, a).0, RefIndex(g, a).1, c, nc, e, r)
    requires s' == s.(bytes := s'.bytes, rc := s'.rc)
    ensures Attempted(g, s, k, a, c, nc, s', k, r)
  {
    hide Inv, Contents, SameBlocks, SameUses, CountsBut, SameAreas, CachedOk, WrittenBack, LevelOk;
    InvShape(g, s, k);
    var (t, n) := RefIndex(g, a);
    SwapRc(g, s, k, e, t);
    assert s.rc.top[t := nc.value.0] == s.rc.top;
    assert s' == RcSwapped(g, s, e, t);
    SameLength(g, s, e);
  }

  lemma UntouchedSelf(g: Geometry, s: Image, k: Ledger)
    requires Inv(g, s, k)
    ensures Untouched(g, s, k, s, k, {}) && Quiet(g, s, s)
  {
    UsesApart(g, s, k, s.bytes, {});
  }

  // A count is set, and so are the counts of the blocks that took.

  /** `a` has count `c`, each block `added` for it has count 1, and every other count is unchanged. */
  ghost predicate CountsAfter(g: Geometry, s: Image, s': Image, a: nat, c: nat, added: set<nat>)
    requires 2 <= g.clusterSize
  {
    forall a': nat :: a' % g.clusterSize == 0 ==>
      Count(g, s'.bytes, s'.rc, a') ==
      if a' == a then c else if a' in added then 1 else Count(g, s.bytes, s.rc, a')
  }

  /** At most one cluster came free: a refcount block that had to move. */
  ghost predicate FreedOk(own: map<nat, Role>, own': map<nat, Role>, freed: seq<nat>) {
    && |freed| <= 1
    && (forall i :: 0 <= i < |freed| ==>
          && freed[i] in own' && own'[freed[i]] == Dropped
          && (freed[i] in own ==> own[freed[i]].RefBlock? || own[freed[i]].Avail?))
  }

  ghost predicate CountedAs(g: Geometry, s: Image, k: Ledger, s': Image, k': Ledger, a: nat, c: nat,
                            added: set<nat>, freed: seq<nat>)
    requires 8 <= g.clusterSize
  {
    && Inv(g, s', k')
    && Untouched(g, s, k, s', k', {})
    && CountsAfter(g, s, s', a, c, added)
    && k'.pending <= Paid(k.pending, a, c)
    && (forall x :: x in added && x in k.own ==> k.own[x].Avail?)
    && FreedOk(k.own, k'.own, freed)
    && FreeClusters(g, s') <= FreeClusters(g, s)
  }

  /** Between the attempt that set the count of `a` and the call that counts the new block `x`. */
  ghost predicate HalfCounted(g: Geometry, s: Image, k: Ledger, s': Image, k': Ledger, a: nat, c: nat, added: seq<nat>)
    requires 8 <= g.clusterSize
  {
    && Inv(g, s', k')
    && Untouched(g, s, k, s', k', {})
    && CountsBut(g, s, s', a, c)
    && k'.pending == Paid(k.pending + (set x | x in added), a, c)
    && |added| <= 1
    && (forall i :: 0 <= i < |added| ==> added[i] in k'.own && k'.own[added[i]].RefBlock?)
    && (forall i :: 0 <= i < |added| ==> (added[i] in k.own ==> k.own[added[i]].Avail?))
    && FreeClusters(g, s') + |added| <= FreeClusters(g, s)
    && IsDirty(s'.rc.cache, RefIndex(g, a).0)
    && (added != [] ==> added[0] == NextCluster(g, s) && !IsDirty(s.rc.cache, RefIndex(g, a).0))
  }

  /** With the block at hand there is nothing more to allocate for the count of a new block in its range. */
  lemma HalfEasy(g: Geometry, s: Image, k: Ledger, s': Image, k': Ledger, a: nat, c: nat, added: seq<nat>)
    requires 8 <= g.clusterSize && HalfCounted(g, s, k, s', k', a, c, added)
    ensures IsDirty(s'.rc.cache, RefIndex(g, a).0)
    ensures added != [] && EasyCount(g, s, a) ==>
              EasyCount(g, s', added[0]) && RefIndex(g, added[0]).0 == RefIndex(g, a).0
  {
    hide Inv, Untouched, CountsBut, RefIndex, FreeClusters;
  }

  /** The search for a cluster fails only if counting takes more than there is. */
  lemma SeekFails(g: Geometry, s0: Image, k0: Ledger, s: Image, k: Ledger, a: nat, c: nat,
                  nc: Option<(nat, VecCache)>, added: seq<nat>, rounds: nat, s1: Image, k1: Ledger, r: SetResult)
    requires 8 <= g.clusterSize && Seeking(g, s0, k0, s, k, a, nc, added, rounds)
    requires Attempted(g, s, k, a, c, nc, s1, k1, r) && r.NeedNewCluster? && FreeClusters(g, s1) == 0
    ensures !EasyCount(g, s0, a)
  {
    hide Inv, Untouched, CountsBut, RefIndex, SameBlocks;
    FreeSame(g, s, s1);
  }

  lemma HalfCountedAdded(g: Geometry, s: Image, k: Ledger, s': Image, k': Ledger, a: nat, c: nat, added: seq<nat>)
    requires 8 <= g.clusterSize && HalfCounted(g, s, k, s', k', a, c, added)
    ensures |added| <= 1
    ensures added != [] ==> added[0] in k'.own && k'.own[added[0]].RefBlock?
    ensures added != [] ==> FreeClusters(g, s') < FreeClusters(g, s)
  {
    hide Inv, Untouched, CountsBut;
  }

  lemma CountedAlone(g: Geometry, s: Image, k: Ledger, s': Image, k': Ledger, a: nat, c: nat, freed: seq<nat>)
    requires 8 <= g.clusterSize && HalfCounted(g, s, k, s', k', a, c, [])
    requires FreedOk(k.own, k'.own, freed)
    ensures CountedAs(g, s, k, s', k', a, c, {}, freed)
  {
    hide Inv, Untouched, FreeClusters;
  }

  lemma CountedNested(g: Geometry, s0: Image, k0: Ledger, s1: Image, k1: Ledger, s2: Image, k2: Ledger,
                      a: nat, c: nat, x: nat, added: set<nat>, freed: seq<nat>, freed2: seq<nat>)
    requires 8 <= g.clusterSize && HalfCounted(g, s0, k0, s1, k1, a, c, [x])
    requires a in k0.own && !k0.own[a].Avail?
    requires CountedAs(g, s1, k1, s2, k2, x, 1, added, freed2)
    requires FreedOk(k0.own, k1.own, freed)
    ensures CountedAs(g, s0, k0, s2, k2, a, c, added + {x}, freed)
  {
    hide Inv, Contents, SameAreas, FreeClusters, Count, Cluster;
    UntouchedVia(g, s0, k0, s1, k1, s2, k2, {});
    assert [x][0] == x;
    assert a != x && a !in added && x !in added;
  }

  // Handing out a cluster.

  /** Clusters that can still be handed out. */
  function FreeClusters(g: Geometry, s: Image): nat
    requires 0 < g.clusterSize
  {
    |s.avail| + if EndAddress(g, s.bytes) <= g.limit then (g.limit - EndAddress(g, s.bytes)) / g.clusterSize else 0
  }

  /** The cluster that is handed out next. */
  function NextCluster(g: Geometry, s: Image): nat
    requires 0 < g.clusterSize
  {
    if s.avail != [] then s.avail[|s.avail| - 1] else EndAddress(g, s.bytes)
  }

  /**
   * Setting the count of `a` needs at most one cluster, and there is one: the block is being edited
   * already, or the cluster it will move to has its own count in the same block.
   */
  ghost predicate EasyCount(g: Geometry, s: Image, a: nat)
    requires 2 <= g.clusterSize
  {
    var t := RefIndex(g, a).0;
    IsDirty(s.rc.cache, t) || (FreeClusters(g, s) > 0 && RefIndex(g, NextCluster(g, s)).0 == t)
  }

  lemma GrownFree(g: Geometry, s: Image)
    requires 0 < g.clusterSize && |s.bytes| <= EndAddress(g, s.bytes)
    requires EndAddress(g, s.bytes) + g.clusterSize <= g.limit
    ensures FreeClusters(g, Grown(g, s)) == FreeClusters(g, s) - 1
  {
    var cs, x := g.clusterSize, EndAddress(g, s.bytes);
    var q := CeilDiv(|s.bytes|, cs);
    assert x + cs == (q + 1) * cs;
    MultipleAligned(cs, q + 1);
    var m := g.limit - x;
    assert m == cs * (m / cs) + m % cs;
    assert m / cs >= 1;
    DivModUnique(m - cs, cs, m / cs - 1, m % cs);
  }

  lemma NoFreeClusters(g: Geometry, s: Image)
    requires 0 < g.clusterSize && s.avail == []
    ensures FreeClusters(g, s) == 0 <==> g.limit < EndAddress(g, s.bytes) + g.clusterSize
  {
    if EndAddress(g, s.bytes) <= g.limit {
      var m := g.limit - EndAddress(g, s.bytes);
      assert m == g.clusterSize * (m / g.clusterSize) + m % g.clusterSize;
      assert m / g.clusterSize >= 1 ==> m >= g.clusterSize * 1;
    }
  }

  /** `x` was handed out: it is zeroed, it was free or beyond the end, and nothing else changed. */
  ghost predicate Allocated(g: Geometry, s: Image, k: Ledger, s': Image, k': Ledger, x: nat)
    requires 8 <= g.clusterSize
  {
    && Inv(g, s', k')
    && (x in k.own ==> k.own[x].Avail?)
    && k' == k.(own := k.own[x := Held])
    && x + g.clusterSize <= |s'.bytes|
    && Cluster(g.clusterSize, s'.bytes, x) == Zeros(g.clusterSize)
    && SameClusters(g.clusterSize, s.bytes, s'.bytes, {x})
    && Quiet(g, s, s')
    && Untouched(g, s, k, s', k', {})
    && s'.rc == s.rc && s'.l2 == s.l2 && s'.unref == s.unref
    && FreeClusters(g, s') == FreeClusters(g, s) - 1
    && x == NextCluster(g, s)
  }

  lemma AllocatedInv(g: Geometry, s: Image, k: Ledger, s': Image, k': Ledger, x: nat)
    requires 8 <= g.clusterSize && Allocated(g, s, k, s', k', x)
    ensures Inv(g, s', k') && SameAreas(g, s.bytes, s'.bytes)
    ensures k' == k.(own := k.own[x := Held])
    ensures s'.rc == s.rc && s'.l2 == s.l2 && s'.unref == s.unref
  {
    hide Inv;
  }

  lemma AllocateAvail(g: Geometry, s: Image, k: Ledger)
    requires Inv(g, s, k) && s.avail != []
    ensures var x := s.avail[|s.avail| - 1];
            && x in k.own && k.own[x].Avail? && x !in k.frozen.blocks && x + g.clusterSize <= |s.bytes|
            && Allocated(g, s, k, TakenAvail(g, s), k.(own := k.own[x := Held]), x)
            && SameAreas(g, s.bytes, TakenAvail(g, s).bytes)
            && FreeClusters(g, s) > 0
  {
    TakeAvail(g, s, k);
    UsesApart(g, s, k, TakenAvail(g, s).bytes, {s.avail[|s.avail| - 1]});
    hide Inv, SameClusters, Quiet;
  }

  lemma AllocateEnd(g: Geometry, s: Image, k: Ledger)
    requires Inv(g, s, k) && EndAddress(g, s.bytes) + g.clusterSize <= g.limit && s.avail == []
    ensures var x := EndAddress(g, s.bytes);
            && |s.bytes| <= x
            && Allocated(g, s, k, Grown(g, s), k.(own := k.own[x := Held]), x)
            && SameAreas(g, s.bytes, Grown(g, s).bytes)
  {
    GrowEnd(g, s, k);
    GrownFree(g, s);
    UsesApart(g, s, k, Grown(g, s).bytes, {});
    assert SameClusters(g.clusterSize, s.bytes, Grown(g, s).bytes, {EndAddress(g, s.bytes)});
    hide Inv, SameClusters, Quiet, EndAddress, FreeClusters;
  }

  // The retry loop around the attempts.

  /**
   * In the loop: nothing is set yet. With three rounds left no cluster is at hand, with two the
   * block was read, with one a new cluster was allocated and the next attempt succeeds.
   */
  ghost predicate Seeking(g: Geometry, s0: Image, k0: Ledger, s: Image, k: Ledger, a: nat,
                          nc: Option<(nat, VecCache)>, added: seq<nat>, rounds: nat)
    requires 8 <= g.clusterSize
  {
    && Inv(g, s, k)
    && Untouched(g, s0, k0, s, k, {})
    && SameBlocks(g.clusterSize, s0.bytes, s0.rc, s.bytes, s.rc)
    && k.pending == k0.pending && a in k.own
    && FreeClusters(g, s) + |added| <= FreeClusters(g, s0)
    && match rounds
       case 3 => nc == None && added == [] && s == s0
       case 2 => SuppliedBlock(g, s, a, nc) && added == [] && s == s0
       case 1 => SuppliedNew(g, s, k, a, nc) && added == [nc.value.0]
                 && nc.value.0 == NextCluster(g, s0) && !IsDirty(s0.rc.cache, RefIndex(g, a).0)
                 && (nc.value.0 in k0.own ==> k0.own[nc.value.0].Avail?)
       case _ => false
  }

  lemma SeekStart(g: Geometry, s: Image, k: Ledger, a: nat)
    requires Inv(g, s, k) && a in k.own
    ensures Seeking(g, s, k, s, k, a, None, [], 3)
  {
    UntouchedSelf(g, s, k);
  }

  /** The parts of the loop state the next attempt relies on. */
  lemma SeekSupplied(g: Geometry, s0: Image, k0: Ledger, s: Image, k: Ledger, a: nat,
                     nc: Option<(nat, VecCache)>, added: seq<nat>, rounds: nat)
    requires 8 <= g.clusterSize && Seeking(g, s0, k0, s, k, a, nc, added, rounds)
    ensures Supplied(g, s, k, a, nc) && a in k.own && 1 <= rounds <= 3
  {
    hide Inv, Untouched;
  }

  /** The block was asked for and read. */
  lemma SeekBlock(g: Geometry, s0: Image, k0: Ledger, s: Image, k: Ledger, a: nat, c: nat,
                  nc: Option<(nat, VecCache)>, added: seq<nat>, rounds: nat, s': Image, k': Ledger, r: SetResult)
    requires 8 <= g.clusterSize && Seeking(g, s0, k0, s, k, a, nc, added, rounds)
    requires Attempted(g, s, k, a, c, nc, s', k', r) && r.NeedCluster?
    ensures r.addr + g.clusterSize <= |s'.bytes| && s'.rc.kind == Counts && rounds == 3
    ensures var block := VecCache(DecodeBlock(Counts, g.clusterSize, Cluster(g.clusterSize, s'.bytes, r.addr)), false);
            Seeking(g, s0, k0, s', k', a, Some((r.addr, block)), added, 2)
  {
    InvShape(g, s', k');
    assert s'.rc.top[RefIndex(g, a).0] == r.addr;
    assert LevelOk(g.clusterSize, s'.bytes, s'.rc);
    hide Inv, Untouched;
  }

  /** A new cluster was asked for and allocated. */
  lemma SeekNew(g: Geometry, s0: Image, k0: Ledger, s: Image, k: Ledger, a: nat, c: nat,
                nc: Option<(nat, VecCache)>, added: seq<nat>, rounds: nat, s1: Image, k1: Ledger, r: SetResult,
                s2: Image, k2: Ledger, x: nat)
    requires 8 <= g.clusterSize && Seeking(g, s0, k0, s, k, a, nc, added, rounds)
    requires Attempted(g, s, k, a, c, nc, s1, k1, r) && r.NeedNewCluster?
    requires Allocated(g, s1, k1, s2, k2, x)
    ensures rounds > 1
    ensures Seeking(g, s0, k0, s2, k2, a, Some((x, NewBlock(g.clusterSize / 2))), added + [x], 1)
  {
    hide Inv, Contents, SameAreas, Cluster, SameBlocks, LevelOk, SameClusters;
    UntouchedVia(g, s0, k0, s, k, s1, k1, {});
    UntouchedVia(g, s0, k0, s1, k1, s2, k2, {});
    SameBlocksTrans(g.clusterSize, s0.bytes, s0.rc, s.bytes, s.rc, s1.bytes, s1.rc);
    SameBlocksTrans(g.clusterSize, s0.bytes, s0.rc, s1.bytes, s1.rc, s2.bytes, s2.rc);
    FreeSame(g, s, s1);
  }

  lemma FreeSame(g: Geometry, s: Image, s': Image)
    requires 0 < g.clusterSize && s'.avail == s.avail && |s'.bytes| == |s.bytes|
    ensures FreeClusters(g, s') == FreeClusters(g, s)
  {
  }

  /** The count was set. */
  lemma SeekDone(g: Geometry, s0: Image, k0: Ledger, s: Image, k: Ledger, a: nat, c: nat,
                 nc: Option<(nat, VecCache)>, added: seq<nat>, rounds: nat, s': Image, k': Ledger, r: SetResult)
    requires 8 <= g.clusterSize && Seeking(g, s0, k0, s, k, a, nc, added, rounds)
    requires Attempted(g, s, k, a, c, nc, s', k', r) && r.Done?
    ensures HalfCounted(g, s0, k0, s', k', a, c, added)
    ensures FreedOk(k0.own, k'.own, if r.dropped.Some? then [r.dropped.value] else [])
  {
    hide Inv, Contents, SameAreas, Cluster, SameBlocks, LevelOk, FreeClusters, CountsBut;
    CountsVia(g, s0, s, s', a, c);
    UntouchedVia(g, s0, k0, s, k, s', k', if nc.Some? then {nc.value.0} else {});
    FreeSame(g, s, s');
    assert nc.Some? ==> (set y | y in added) == {nc.value.0};
    assert nc.None? ==> (set y | y in added) == {};
  }

  // Queueing what came free.

  /** Like `Untouched`, except that clusters may have joined the queue of freed ones. */
  ghost predicate Background(g: Geometry, s: Image, k: Ledger, s': Image, k': Ledger)
    requires 8 <= g.clusterSize
  {
    && s'.l2 == s.l2 && s.unref <= s'.unref && k'.frozen == k.frozen
    && |s.bytes| <= |s'.bytes| && SameAreas(g, s.bytes, s'.bytes)
    && Contents(g, s'.bytes, s'.l2) == Contents(g, s.bytes, s.l2)
    && SameUses(g, s.bytes, k.own, s'.bytes, k'.own, {})
  }

  function Queued(s: Image, freed: seq<nat>): Image {
    s.(unref := s.unref + freed)
  }

  function QueuedLedger(s: Image, k: Ledger, freed: seq<nat>): Ledger {
    if freed == [] then k else k.(own := k.own[freed[0] := Unref(|s.unref|)])
  }

  /** The count is set and whatever that freed is queued. */
  ghost predicate CountedAndQueued(g: Geometry, s: Image, k: Ledger, s': Image, k': Ledger, a: nat, c: nat,
                                   added: set<nat>)
    requires 8 <= g.clusterSize
  {
    && Inv(g, s', k')
    && Background(g, s, k, s', k')
    && CountsAfter(g, s, s', a, c, added)
    && k'.pending <= Paid(k.pending, a, c)
    && (forall x :: x in added && x in k.own ==> k.own[x].Avail?)
  }

  lemma QueueFreed(g: Geometry, s: Image, k: Ledger, s1: Image, k1: Ledger, a: nat, c: nat, added: set<nat>,
                   freed: seq<nat>)
    requires 8 <= g.clusterSize && CountedAs(g, s, k, s1, k1, a, c, added, freed)
    ensures CountedAndQueued(g, s, k, Queued(s1, freed), QueuedLedger(s1, k1, freed), a, c, added)
  {
    hide Inv, Contents, SameAreas, Cluster, Count, FreeClusters;
    if freed == [] {
      assert Queued(s1, freed) == s1;
    } else {
      assert freed == [freed[0]];
      QueueDropped(g, s1, k1, freed[0]);
    }
  }

  lemma QueuedInv(g: Geometry, s: Image, k: Ledger, s': Image, k': Ledger, a: nat, c: nat, added: set<nat>)
    requires 8 <= g.clusterSize && CountedAndQueued(g, s, k, s', k', a, c, added)
    ensures Inv(g, s', k') && k'.frozen == k.frozen
  {
    hide Inv;
  }

  /** A cluster that is not live need not be counted. */
  lemma TrimPending(g: Geometry, s: Image, k: Ledger, a: nat)
    requires Inv(g, s, k) && a in k.own && !Live(k.own[a])
    ensures Inv(g, s, k.(pending := k.pending - {a}))
  {
  }
}
