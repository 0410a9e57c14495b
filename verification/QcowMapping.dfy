/** What looking up and changing the cluster mapping does to an open image. */
module QcowMapping {
  import opened HostBytes
  import opened Wrappers
  import opened VecCaches
  import opened CachedTables
  import opened QcowImage
  import opened QcowSteps
  import opened QcowDisk
  import opened QcowCounting

  // Bringing an L2 table into the cache.

  function L2Swapped(g: Geometry, s: Image, e: Option<nat>, i: nat): Image
    requires g.clusterSize % 8 == 0 && i < |s.l2.top| && s.l2.top[i] + g.clusterSize <= |s.bytes|
    requires e.Some? ==> e.value in s.l2.cache && CachedOk(g.clusterSize, s.bytes, s.l2, e.value)
  {
    var block := VecCache(DecodeBlock(s.l2.kind, g.clusterSize, Cluster(g.clusterSize, s.bytes, s.l2.top[i])), false);
    s.(bytes := SwappedBytes(g.clusterSize, s.bytes, s.l2, e), l2 := Swapped(s.l2, e, i, block))
  }

  lemma SwapL2(g: Geometry, s: Image, k: Ledger, e: Option<nat>, i: nat)
    requires Inv(g, s, k) && i < |s.l2.top| && s.l2.top[i] != 0 && i !in s.l2.cache
    requires e.Some? ==> e.value in s.l2.cache
    ensures e.Some? ==> CachedOk(g.clusterSize, s.bytes, s.l2, e.value)
    ensures Inv(g, L2Swapped(g, s, e, i), k) && Quiet(g, s, L2Swapped(g, s, e, i))
  {
    hide Inv, Contents, SameBlocks, SameAreas, CachedOk, DecodeBlock, Plain;
    InvShape(g, s, k);
    if e.Some? {
      L2Role(g, s, k, e.value);
      TopsDistinct(g, s, k);
      EvictL2(g, s, k, e.value);
      var s1 := L2Evicted(g, s, e.value);
      LoadL2(g, s1, k, i);
      assert L2Swapped(g, s, e, i) == L2Loaded(g, s1, i);
      QuietTrans(g, s, s1, L2Swapped(g, s, e, i));
    } else {
      LoadL2(g, s, k, i);
      assert L2Swapped(g, s, e, i) == L2Loaded(g, s, i);
    }
  }

  /** A new, empty L2 table enters the cache. */
  function L2SwappedNew(g: Geometry, s: Image, e: Option<nat>, i: nat): Image
    requires g.clusterSize % 8 == 0
    requires e.Some? ==> e.value in s.l2.cache && CachedOk(g.clusterSize, s.bytes, s.l2, e.value)
  {
    s.(bytes := SwappedBytes(g.clusterSize, s.bytes, s.l2, e),
       l2 := Swapped(s.l2, e, i, NewBlock(g.clusterSize / 8)))
  }

  lemma SwapNewL2(g: Geometry, s: Image, k: Ledger, e: Option<nat>, i: nat)
    requires Inv(g, s, k) && i < |s.l2.top| && s.l2.top[i] != 0 && i !in s.l2.cache
    requires e.Some? ==> e.value in s.l2.cache
    requires s.l2.top[i] + g.clusterSize <= |s.bytes| && s.l2.top[i] !in k.frozen.blocks
    requires Cluster(g.clusterSize, s.bytes, s.l2.top[i]) == Zeros(g.clusterSize)
    ensures e.Some? ==> CachedOk(g.clusterSize, s.bytes, s.l2, e.value)
    ensures Inv(g, L2SwappedNew(g, s, e, i), k) && Quiet(g, s, L2SwappedNew(g, s, e, i))
  {
    if e.Some? {
      EvictL2(g, s, k, e.value);
      var s1 := L2Evicted(g, s, e.value);
      assert s1.l2.top[i] != s.l2.top[e.value];
      FreshL2(g, s1, k, i);
      assert L2SwappedNew(g, s, e, i) == L2Fresh(g, s1, i);
      QuietTrans(g, s, s1, L2SwappedNew(g, s, e, i));
    } else {
      FreshL2(g, s, k, i);
      assert L2SwappedNew(g, s, e, i) == L2Fresh(g, s, i);
    }
    hide Inv;
  }

  // Mapping a data cluster.

  /** A clean table moves to cluster `x` as entry `j` is set to `d`. */
  function MovedAndMapped(s: Image, i: nat, j: nat, d: nat, x: nat): Image
    requires i < |s.l2.top| && i in s.l2.cache && j < |s.l2.cache[i].vec|
  {
    s.(l2 := s.l2.(top := s.l2.top[i := x], cache := s.l2.cache[i := s.l2.cache[i].Set(j, d)]),
       unref := s.unref + [s.l2.top[i]])
  }

  function MovedLedger(s: Image, k: Ledger, i: nat, j: nat, d: nat, x: nat): Ledger
    requires i < |s.l2.top|
  {
    k.(own := k.own[s.l2.top[i] := Unref(|s.unref|)][x := L2Table(i)][d := Data(i, j)], pending := k.pending + {x})
  }

  lemma MoveAndMap(g: Geometry, s: Image, k: Ledger, i: nat, j: nat, d: nat, x: nat)
    requires Inv(g, s, k) && i in s.l2.cache && !s.l2.cache[i].dirty && j < |s.l2.cache[i].vec|
    requires Entry(g.clusterSize, s.bytes, s.l2, i, j) == 0
    requires d in k.own && k.own[d] == Held && Count(g, s.bytes, s.rc, d) >= 1
    requires x in k.own && k.own[x] == Held && x != d
    ensures i < |s.l2.top| && s.l2.top[i] in k.own && k.own[s.l2.top[i]] == L2Table(i)
    ensures Inv(g, MovedAndMapped(s, i, j, d, x), MovedLedger(s, k, i, j, d, x))
    ensures EntrySet(g, s, MovedAndMapped(s, i, j, d, x), i, j, d)
  {
    hide Contents, LevelOk, OwnedOk, CountedOk, FrozenOk, MappedOk;
    MoveL2(g, s, k, i, x);
    var s1 := L2Moved(s, i, x);
    var k1 := k.(own := k.own[s.l2.top[i] := Unref(|s.unref|)][x := L2Table(i)], pending := k.pending + {x});
    SameEntry(g.clusterSize, s.bytes, s.l2, s1.bytes, s1.l2, i, j);
    MapData(g, s1, k1, i, j, d);
    UpdateTwice(s.l2.cache, i, VecCache(s.l2.cache[i].vec, true), s.l2.cache[i].Set(j, d));
    assert DataMapped(s1, i, j, d) == MovedAndMapped(s, i, j, d, x);
    EntrySetVia(g, s, s1, DataMapped(s1, i, j, d), i, j, d);
  }

  /** Entry `(i, j)` became `d`; every other entry is as before. */
  ghost predicate EntrySet(g: Geometry, s: Image, s': Image, i: nat, j: nat, d: nat) {
    forall i': nat, j': nat ::
      Entry(g.clusterSize, s'.bytes, s'.l2, i', j') ==
      if i' == i && j' == j then d else Entry(g.clusterSize, s.bytes, s.l2, i', j')
  }

  lemma SameEntry(cs: nat, b: seq<byte>, lv: Level, b': seq<byte>, lv': Level, i: nat, j: nat)
    requires SameBlocks(cs, b, lv, b', lv')
    ensures Entry(cs, b', lv', i, j) == Entry(cs, b, lv, i, j)
  {
    assert Block(cs, b', lv', i) == Block(cs, b, lv, i);
  }

  lemma EntrySetVia(g: Geometry, s: Image, s1: Image, s2: Image, i: nat, j: nat, d: nat)
    requires SameBlocks(g.clusterSize, s.bytes, s.l2, s1.bytes, s1.l2) && EntrySet(g, s1, s2, i, j, d)
    ensures EntrySet(g, s, s2, i, j, d)
  {
    hide SameBlocks, Entry;
    forall i': nat, j': nat
      ensures Entry(g.clusterSize, s2.bytes, s2.l2, i', j') ==
              if i' == i && j' == j then d else Entry(g.clusterSize, s.bytes, s.l2, i', j')
    {
      SameEntry(g.clusterSize, s.bytes, s.l2, s1.bytes, s1.l2, i', j');
    }
  }

  /** The virtual disk is unchanged when a zeroed cluster is mapped for virtual cluster `c`. */
  lemma MappedUnseen(g: Geometry, s: Image, k: Ledger, s': Image, c: nat, d: nat)
    requires Inv(g, s, k) && s'.bytes == s.bytes
    requires EntrySet(g, s, s', MapIndex(g, c).0, MapIndex(g, c).1, d)
    requires MapEntry(g, s.bytes, s.l2, c) == 0
    requires d + g.clusterSize <= |s.bytes| && Cluster(g.clusterSize, s.bytes, d) == Zeros(g.clusterSize)
    ensures Contents(g, s'.bytes, s'.l2) == Contents(g, s.bytes, s.l2)
    ensures MapEntry(g, s'.bytes, s'.l2, c) == d
  {
    MapZeroContents(g, s, k, s', c, d);
  }

  lemma QuietSelf(g: Geometry, s: Image, k: Ledger)
    requires Inv(g, s, k)
    ensures Quiet(g, s, s)
  {
  }

  lemma QuietAreas(g: Geometry, s: Image, s': Image)
    requires 8 <= g.clusterSize && Quiet(g, s, s')
    ensures SameAreas(g, s.bytes, s'.bytes)
  {
  }

  lemma NoTable(g: Geometry, s: Image, k: Ledger, i: nat, j: nat)
    requires Inv(g, s, k) && i < |s.l2.top| && s.l2.top[i] == 0
    ensures i !in s.l2.cache && Entry(g.clusterSize, s.bytes, s.l2, i, j) == 0
  {
    assert i in s.l2.cache ==> CachedOk(g.clusterSize, s.bytes, s.l2, i);
  }

  lemma AllocatedZero(g: Geometry, s: Image, k: Ledger, s': Image, k': Ledger, x: nat)
    requires 8 <= g.clusterSize && Allocated(g, s, k, s', k', x)
    ensures Inv(g, s', k') && Quiet(g, s, s') && s'.l2 == s.l2 && s'.rc == s.rc && s'.unref == s.unref
    ensures k' == k.(own := k.own[x := Held])
    ensures x + g.clusterSize <= |s'.bytes| && Cluster(g.clusterSize, s'.bytes, x) == Zeros(g.clusterSize)
    ensures x in k.own ==> k.own[x].Avail?
    ensures Untouched(g, s, k, s', k', {})
  {
    hide Inv;
  }

  // Reference counts still to be set.

  /** Clusters whose first reference the list pays for. */
  function PaysFor(dues: seq<(nat, nat)>): set<nat> {
    set m | 0 <= m < |dues| && dues[m].1 == 1 :: dues[m].0
  }

  /** Every count to be set belongs to a cluster in use, and a zero count to one that is not live. */
  ghost predicate DuesOk(k: Ledger, dues: seq<(nat, nat)>) {
    forall m :: 0 <= m < |dues| ==>
      && dues[m].1 <= 1
      && dues[m].0 in k.own && !k.own[dues[m].0].Avail?
      && (dues[m].1 == 0 ==> k.own[dues[m].0].Unref?)
  }

  lemma PaysForNew(x: nat)
    ensures PaysFor([(x, 1)]) == {x}
  {
    assert [(x, 1)][0] == (x, 1);
  }

  /** A cluster just handed out, counted once, is still zeroed and held. */
  lemma AppendedData(g: Geometry, s0: Image, k0: Ledger, s1: Image, k1: Ledger, s2: Image, k2: Ledger, d: nat,
                     added: set<nat>)
    requires 8 <= g.clusterSize && Untouched(g, s0, k0, s1, k1, {})
    requires Inv(g, s1, k1) && d in k1.own && k1.own[d] == Held
    requires d + g.clusterSize <= |s1.bytes| && Cluster(g.clusterSize, s1.bytes, d) == Zeros(g.clusterSize)
    requires k1.pending == k0.pending
    requires CountedAndQueued(g, s1, k1, s2, k2, d, 1, added)
    ensures Background(g, s0, k0, s2, k2)
    ensures d in k2.own && k2.own[d] == Held && d + g.clusterSize <= |s2.bytes|
    ensures Cluster(g.clusterSize, s2.bytes, d) == Zeros(g.clusterSize)
    ensures Count(g, s2.bytes, s2.rc, d) == 1 && d != 0
    ensures k2.pending <= k0.pending
  {
    HeldAligned(g, s1, k1, d);
    hide Inv, Contents, SameAreas, Count, Cluster;
  }

  lemma HeldAligned(g: Geometry, s: Image, k: Ledger, d: nat)
    requires Inv(g, s, k) && d in k.own && k.own[d] == Held
    ensures d % g.clusterSize == 0 && d != 0
  {
    assert Reserved(g, 0);
  }

  /** A count of zero is set for a cluster that is no longer live. */
  function Settle(k: Ledger, a: nat, c: nat): Ledger {
    if c == 0 then k.(pending := k.pending - {a}) else k
  }

  lemma BackgroundTrans(g: Geometry, s0: Image, k0: Ledger, s1: Image, k1: Ledger, s2: Image, k2: Ledger)
    requires 8 <= g.clusterSize && Background(g, s0, k0, s1, k1) && Background(g, s1, k1, s2, k2)
    ensures Background(g, s0, k0, s2, k2)
  {
    hide Contents;
  }

  lemma BackgroundSelf(g: Geometry, s: Image, k: Ledger)
    requires Inv(g, s, k)
    ensures Background(g, s, k, s, k)
  {
    UsesApart(g, s, k, s.bytes, {});
  }

  /** The first count on the list is set; the rest of the list is still in order. */
  lemma DuePaid(g: Geometry, s0: Image, k0: Ledger, s: Image, k: Ledger, dues: seq<(nat, nat)>,
                s': Image, k': Ledger, added: set<nat>)
    requires 8 <= g.clusterSize && dues != [] && DuesOk(k, dues) && k.pending <= PaysFor(dues)
    requires Background(g, s0, k0, s, k)
    requires CountedAndQueued(g, s, k, s', k', dues[0].0, dues[0].1, added)
    ensures var k2 := Settle(k', dues[0].0, dues[0].1);
            && Inv(g, s', k2) && Background(g, s0, k0, s', k2)
            && DuesOk(k2, dues[1..]) && k2.pending <= PaysFor(dues[1..]) && k2.frozen == k.frozen
  {
    hide Inv, Contents, SameAreas, Cluster, CountsAfter;
    var (a, c) := dues[0];
    BackgroundTrans(g, s0, k0, s, k, s', k');
    if c == 0 {
      TrimPending(g, s', k', a);
    }
    forall p | p in Settle(k', a, c).pending
      ensures p in PaysFor(dues[1..])
    {
      var m :| 0 <= m < |dues| && dues[m].1 == 1 && dues[m].0 == p;
      assert m > 0;
      assert dues[1..][m - 1] == dues[m];
    }
  }

  lemma DuesKept(k: Ledger, k': Ledger, dues: seq<(nat, nat)>)
    requires DuesOk(k, dues)
    requires forall a :: a in k.own && !k.own[a].Avail? ==> a in k'.own && !k'.own[a].Avail?
    requires forall a :: a in k.own && k.own[a].Unref? ==> a in k'.own && k'.own[a].Unref?
    ensures DuesOk(k', dues)
  {
  }

  lemma PaysForMore(dues: seq<(nat, nat)>, prev: nat, x: nat)
    ensures PaysFor(dues + [(prev, 0), (x, 1)]) == PaysFor(dues) + {x}
  {
    var all := dues + [(prev, 0), (x, 1)];
    forall p | p in PaysFor(dues) + {x}
      ensures p in PaysFor(all)
    {
      if p == x {
        assert all[|dues| + 1] == (x, 1);
      } else {
        var m :| 0 <= m < |dues| && dues[m].1 == 1 && dues[m].0 == p;
        assert all[m] == dues[m];
      }
    }
    forall p | p in PaysFor(all)
      ensures p in PaysFor(dues) + {x}
    {
      var m :| 0 <= m < |all| && all[m].1 == 1 && all[m].0 == p;
      if m < |dues| {
        assert dues[m] == all[m];
      }
    }
  }

  // Mapping a data cluster, whole.

  /** Virtual cluster `c` is mapped to `d`; the virtual disk looks as before. */
  ghost predicate Mapped(g: Geometry, s: Image, k: Ledger, s': Image, k': Ledger, c: nat, d: nat, dues: seq<(nat, nat)>)
    requires 8 <= g.clusterSize
  {
    && Inv(g, s', k')
    && MapIndex(g, c).0 in s'.l2.cache
    && MapEntry(g, s'.bytes, s'.l2, c) == d
    && Contents(g, s'.bytes, s'.l2) == Contents(g, s.bytes, s.l2)
    && k'.frozen == k.frozen
    && DuesOk(k', dues) && k'.pending <= PaysFor(dues)
  }

  /** What a data cluster about to be mapped has to be. */
  ghost predicate Mappable(g: Geometry, s: Image, k: Ledger, c: nat, d: nat)
    requires 8 <= g.clusterSize
  {
    && MapIndex(g, c).0 in s.l2.cache && MapIndex(g, c).1 < |s.l2.cache[MapIndex(g, c).0].vec|
    && MapEntry(g, s.bytes, s.l2, c) == 0
    && d in k.own && k.own[d] == Held && d + g.clusterSize <= |s.bytes|
    && Cluster(g.clusterSize, s.bytes, d) == Zeros(g.clusterSize)
    && Count(g, s.bytes, s.rc, d) >= 1
  }

  lemma MapInDirty(g: Geometry, s: Image, k: Ledger, c: nat, d: nat, dues: seq<(nat, nat)>)
    requires Inv(g, s, k) && Mappable(g, s, k, c, d) && s.l2.cache[MapIndex(g, c).0].dirty
    requires DuesOk(k, dues) && k.pending <= PaysFor(dues)
    ensures var (i, j) := MapIndex(g, c);
            Mapped(g, s, k, DataMapped(s, i, j, d), k.(own := k.own[d := Data(i, j)]), c, d, dues)
  {
    hide Inv, Contents, Count, Cluster;
    InvShape(g, s, k);
    var (i, j) := MapIndex(g, c);
    MapData(g, s, k, i, j, d);
    MappedUnseen(g, s, k, DataMapped(s, i, j, d), c, d);
    DuesKept(k, k.(own := k.own[d := Data(i, j)]), dues);
  }

  lemma MapInMoved(g: Geometry, s: Image, k: Ledger, s1: Image, k1: Ledger, c: nat, d: nat, x: nat,
                   dues: seq<(nat, nat)>)
    requires Inv(g, s, k) && Mappable(g, s, k, c, d) && !s.l2.cache[MapIndex(g, c).0].dirty
    requires DuesOk(k, dues) && k.pending <= PaysFor(dues)
    requires Allocated(g, s, k, s1, k1, x)
    ensures var (i, j) := MapIndex(g, c);
            && s1.l2 == s.l2 && i < |s1.l2.top|
            && Mapped(g, s, k, MovedAndMapped(s1, i, j, d, x), MovedLedger(s1, k1, i, j, d, x), c, d,
                      dues + [(s1.l2.top[i], 0), (x, 1)])
  {
    hide Inv, Contents, Count, Cluster, Quiet, SameClusters, LevelOk, DuesOk, PaysFor, SameUses, SameAreas,
         FreeClusters, EntrySet, MapEntry;
    InvShape(g, s, k);
    var (i, j) := MapIndex(g, c);
    AllocatedZero(g, s, k, s1, k1, x);
    HeldKept(g, s, k, s1, k1, d);
    QuietFacts(g, s, s1, c, d);
    EntryOf(g, s1, c);
    MoveAndMap(g, s1, k1, i, j, d, x);
    MappedUnseen(g, s1, k1, MovedAndMapped(s1, i, j, d, x), c, d);
    MovedDues(s1, k, k1, i, j, d, x, dues);
  }

  lemma EntryOf(g: Geometry, s: Image, c: nat)
    requires 8 <= g.clusterSize
    ensures MapEntry(g, s.bytes, s.l2, c) == Entry(g.clusterSize, s.bytes, s.l2, MapIndex(g, c).0, MapIndex(g, c).1)
  {
  }

  lemma HeldKept(g: Geometry, s: Image, k: Ledger, s': Image, k': Ledger, d: nat)
    requires 8 <= g.clusterSize && Untouched(g, s, k, s', k', {}) && d in k.own && k.own[d] == Held
    ensures d in k'.own && k'.own[d] == Held
    ensures d + g.clusterSize <= |s.bytes| && d + g.clusterSize <= |s'.bytes|
    ensures Cluster(g.clusterSize, s'.bytes, d) == Cluster(g.clusterSize, s.bytes, d)
  {
  }

  lemma MovedDues(s: Image, k: Ledger, k1: Ledger, i: nat, j: nat, d: nat, x: nat, dues: seq<(nat, nat)>)
    requires i < |s.l2.top| && k1 == k.(own := k.own[x := Held]) && (x in k.own ==> k.own[x].Avail?)
    requires s.l2.top[i] in k1.own && k1.own[s.l2.top[i]] == L2Table(i) && d in k.own && k.own[d] == Held
    requires DuesOk(k, dues) && k.pending <= PaysFor(dues)
    ensures DuesOk(MovedLedger(s, k1, i, j, d, x), dues + [(s.l2.top[i], 0), (x, 1)])
    ensures MovedLedger(s, k1, i, j, d, x).pending <= PaysFor(dues + [(s.l2.top[i], 0), (x, 1)])
  {
    DuesKept(k, MovedLedger(s, k1, i, j, d, x), dues);
    PaysForMore(dues, s.l2.top[i], x);
  }

  lemma QuietFacts(g: Geometry, s: Image, s': Image, c: nat, d: nat)
    requires 8 <= g.clusterSize && Quiet(g, s, s')
    ensures MapEntry(g, s'.bytes, s'.l2, c) == MapEntry(g, s.bytes, s.l2, c)
    ensures Count(g, s'.bytes, s'.rc, d) == Count(g, s.bytes, s.rc, d)
    ensures Contents(g, s'.bytes, s'.l2) == Contents(g, s.bytes, s.l2)
    ensures SameAreas(g, s.bytes, s'.bytes)
  {
    SameMapEntry(g, s, s', c);
    SameCount(g, s.bytes, s.rc, s'.bytes, s'.rc, d);
  }

  lemma MappedInv(g: Geometry, s: Image, k: Ledger, s': Image, k': Ledger, c: nat, d: nat, dues: seq<(nat, nat)>)
    requires 8 <= g.clusterSize && Mapped(g, s, k, s', k', c, d, dues)
    ensures Inv(g, s', k') && k'.frozen == k.frozen
  {
    hide Inv;
  }

  lemma MappedFacts(g: Geometry, s: Image, k: Ledger, s': Image, k': Ledger, c: nat, d: nat, dues: seq<(nat, nat)>)
    requires 8 <= g.clusterSize && Mapped(g, s, k, s', k', c, d, dues)
    ensures MapIndex(g, c).0 in s'.l2.cache && MapEntry(g, s'.bytes, s'.l2, c) == d
    ensures Contents(g, s'.bytes, s'.l2) == Contents(g, s.bytes, s.l2)
    ensures DuesOk(k', dues) && k'.pending <= PaysFor(dues) && k'.frozen == k.frozen
  {
    hide Inv;
  }

  lemma EntryCached(g: Geometry, s: Image, c: nat)
    requires 8 <= g.clusterSize && MapIndex(g, c).0 in s.l2.cache
    requires |s.l2.cache[MapIndex(g, c).0].vec| == g.clusterSize / 8
    ensures MapIndex(g, c).1 < g.clusterSize / 8
    ensures MapEntry(g, s.bytes, s.l2, c) == s.l2.cache[MapIndex(g, c).0].vec[MapIndex(g, c).1]
  {
  }

  /** Work in the background leaves a cached entry as it is. */
  lemma BackgroundFacts(g: Geometry, s: Image, k: Ledger, s': Image, k': Ledger, c: nat)
    requires 8 <= g.clusterSize && Background(g, s, k, s', k') && MapIndex(g, c).0 in s.l2.cache
    ensures MapEntry(g, s'.bytes, s'.l2, c) == MapEntry(g, s.bytes, s.l2, c)
    ensures Contents(g, s'.bytes, s'.l2) == Contents(g, s.bytes, s.l2)
    ensures s'.l2 == s.l2 && k'.frozen == k.frozen
  {
    hide SameUses, SameAreas;
  }

  lemma ReadyToMap(g: Geometry, s: Image, k: Ledger, s': Image, k': Ledger, c: nat, d: nat, dues: seq<(nat, nat)>)
    requires 8 <= g.clusterSize && Background(g, s, k, s', k')
    requires MapIndex(g, c).0 in s.l2.cache && MapIndex(g, c).1 < |s.l2.cache[MapIndex(g, c).0].vec|
    requires MapEntry(g, s.bytes, s.l2, c) == 0
    requires d in k'.own && k'.own[d] == Held && d + g.clusterSize <= |s'.bytes|
    requires Cluster(g.clusterSize, s'.bytes, d) == Zeros(g.clusterSize)
    requires Count(g, s'.bytes, s'.rc, d) == 1
    requires DuesOk(k, dues) && k.pending <= PaysFor(dues) && k'.pending <= k.pending
    ensures Mappable(g, s', k', c, d)
    ensures DuesOk(k', dues) && k'.pending <= PaysFor(dues)
    ensures Contents(g, s'.bytes, s'.l2) == Contents(g, s.bytes, s.l2) && k'.frozen == k.frozen
  {
    hide SameAreas, Contents, Count;
    DuesKept(k, k', dues);
  }

  // Discarding.

  lemma DataNotFrozen(g: Geometry, s: Image, k: Ledger, i: nat, j: nat)
    requires Inv(g, s, k) && i in s.l2.cache && j < |s.l2.cache[i].vec| && s.l2.cache[i].vec[j] != 0
    ensures var d := s.l2.cache[i].vec[j]; d in k.own && k.own[d] == Data(i, j) && d !in k.frozen.blocks
  {
    assert Entry(g.clusterSize, s.bytes, s.l2, i, j) == s.l2.cache[i].vec[j];
  }

  lemma UnmappedContents(g: Geometry, s: Image, k: Ledger, s': Image, c: nat)
    requires Inv(g, s, k) && s'.bytes == s.bytes
    requires EntrySet(g, s, s', MapIndex(g, c).0, MapIndex(g, c).1, 0)
    ensures forall v :: 0 <= v < g.size ==>
              Contents(g, s'.bytes, s'.l2)[v] ==
              if VirtualCluster(g, v) == c then 0 else Contents(g, s.bytes, s.l2)[v]
  {
    UnmapContents(g, s, k, s', c);
  }

  lemma CountFits(g: Geometry, s: Image, k: Ledger, a: nat)
    requires Inv(g, s, k)
    ensures Count(g, s.bytes, s.rc, a) < 0x1_0000
  {
    var (t, n) := RefIndex(g, a);
    if t in s.rc.cache {
      assert CachedOk(g.clusterSize, s.bytes, s.rc, t);
    } else if t < |s.rc.top| && s.rc.top[t] != 0 {
      DecodedStorable(Counts, g.clusterSize, Cluster(g.clusterSize, s.bytes, s.rc.top[t]));
    }
  }

  /** A mapped data cluster always has a reference. */
  lemma DataCounted(g: Geometry, s: Image, k: Ledger, i: nat, j: nat)
    requires Inv(g, s, k) && k.pending == {}
    requires i in s.l2.cache && j < |s.l2.cache[i].vec| && s.l2.cache[i].vec[j] != 0
    ensures var d := s.l2.cache[i].vec[j];
            d in k.own && k.own[d] == Data(i, j) && 1 <= Count(g, s.bytes, s.rc, d) < 0x1_0000
  {
    DataNotFrozen(g, s, k, i, j);
    CountFits(g, s, k, s.l2.cache[i].vec[j]);
  }

  /** A virtual cluster without a data cluster reads as zero. */
  lemma UnmappedZero(g: Geometry, s: Image, c: nat)
    requires 8 <= g.clusterSize && MapEntry(g, s.bytes, s.l2, c) == 0
    ensures forall v :: 0 <= v < g.size && VirtualCluster(g, v) == c ==> Contents(g, s.bytes, s.l2)[v] == 0
  {
    forall v: nat | v < g.size && VirtualCluster(g, v) == c
      ensures Contents(g, s.bytes, s.l2)[v] == 0
    {
      assert ByteAt(g, s.bytes, s.l2, v) == 0;
    }
  }

  function Punched(g: Geometry, s: Image, d: nat): Image
    requires d + g.clusterSize <= |s.bytes|
  {
    s.(bytes := Splice(s.bytes, d, Zeros(g.clusterSize)))
  }

  lemma PunchDropped(g: Geometry, s: Image, k: Ledger, d: nat)
    requires Inv(g, s, k) && d in k.own && k.own[d] == Dropped
    ensures d + g.clusterSize <= |s.bytes|
    ensures Inv(g, Punched(g, s, d), k) && Quiet(g, s, Punched(g, s, d))
  {
    SpliceAreas(g, s.bytes, k.own, d, d, Zeros(g.clusterSize));
    SpliceInCluster(g.clusterSize, s.bytes, d, d, Zeros(g.clusterSize));
    BytesFrame(g, s, k, Punched(g, s, d).bytes, {d});
    ContentsFrame(g, s, k, Punched(g, s, d), {d});
    hide Inv;
  }

  /** Setting the count of a mapped cluster leaves it mapped. */
  lemma StillMapped(g: Geometry, s: Image, k: Ledger, s': Image, k': Ledger, d: nat, n: nat, added: set<nat>)
    requires 8 <= g.clusterSize && CountedAndQueued(g, s, k, s', k', d, n, added)
    ensures s'.l2 == s.l2 && Contents(g, s'.bytes, s'.l2) == Contents(g, s.bytes, s.l2)
    ensures k'.pending <= k.pending + {d}
  {
    hide Inv, Contents;
  }

  // Reading.

  /** A piece of the virtual disk inside one cluster is a piece of its data cluster, or zero. */
  lemma PieceOfDisk(g: Geometry, s: Image, k: Ledger, v: nat, n: nat)
    requires Inv(g, s, k) && v + n <= g.size && ClusterOffset(g, v) + n <= g.clusterSize
    ensures var a := MapEntry(g, s.bytes, s.l2, VirtualCluster(g, v));
            var piece := Contents(g, s.bytes, s.l2)[v..v + n];
            if a == 0 then piece == Zeros(n)
            else a + ClusterOffset(g, v) + n <= |s.bytes|
                 && piece == s.bytes[a + ClusterOffset(g, v)..a + ClusterOffset(g, v) + n]
  {
    var a := MapEntry(g, s.bytes, s.l2, VirtualCluster(g, v));
    MappedOnce(g, s, k.own, VirtualCluster(g, v), VirtualCluster(g, v));
    DataInFile(g, s.bytes, k.own);
    hide Inv, MapEntry;
    forall u: nat | v <= u < v + n
      ensures ByteAt(g, s.bytes, s.l2, u) == ByteIn(s.bytes, a, ClusterOffset(g, v) + (u - v))
    {
      SameCluster(g, v, n, u);
    }
  }
}
