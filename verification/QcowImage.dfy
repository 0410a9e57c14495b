/**
 * The state of an open qcow2 image as a value: the host file, the two cached tables and the free
 * lists, with the ledger that says what every host cluster is used for.
 */
module QcowImage {
  import opened HostBytes
  import opened PointerTables
  import opened CachedTables

  /**
   * What the header fixes for as long as the image is open. Clusters end at or below `limit`: the
   * last one with a refcount slot starts at `max_valid_cluster_offset`.
   */
  datatype Geometry = Geometry(
    clusterSize: nat, size: nat, l1Offset: nat, l1Len: nat, refTableOffset: nat, refTableLen: nat,
    limit: nat)

  function CeilDiv(a: nat, b: nat): nat
    requires 0 < b
  {
    a / b + if a % b != 0 then 1 else 0
  }

  ghost predicate GeometryOk(g: Geometry) {
    && 512 <= g.clusterSize && g.clusterSize % 512 == 0
    && g.limit <= ADDRESS_LIMIT
    && g.clusterSize <= g.l1Offset && g.clusterSize <= g.refTableOffset
    && (g.l1Offset + 8 * g.l1Len <= g.refTableOffset || g.refTableOffset + 8 * g.refTableLen <= g.l1Offset)
  }

  /** The L1 table covers the virtual disk, the refcount table every cluster below the limit. */
  ghost predicate CoverageOk(g: Geometry)
    requires 512 <= g.clusterSize
  {
    && g.l1Len == CeilDiv(CeilDiv(g.size, g.clusterSize), g.clusterSize / 8)
    && g.limit == g.refTableLen * (g.clusterSize / 2) * g.clusterSize
  }

  datatype Image = Image(bytes: seq<byte>, l2: Level, rc: Level, avail: seq<nat>, unref: seq<nat>)

  /** What a host cluster is used for. */
  datatype Role =
    | Fixed                  // header, L1 table or refcount table
    | L2Table(i: nat)        // the L2 table L1 entry `i` points to
    | Data(i: nat, j: nat)   // the data cluster entry `j` of L2 table `i` points to
    | RefBlock(t: nat)       // the refcount block refcount table entry `t` points to
    | Avail(k: nat)          // free, at position `k` of `avail_clusters`
    | Unref(k: nat)          // free after the next flush, at position `k` of `unref_clusters`
    | Held                   // handed out, not linked yet
    | Dropped                // no longer used, and on no free list

  predicate Live(r: Role) {
    r.Fixed? || r.L2Table? || r.Data? || r.RefBlock?
  }

  /**
   * What the tables last committed to disk use: the `blocks` they point to, and the data clusters, each
   * with its slot, that is with the L2 table and the entry that point to it.
   */
  datatype Frozen = Frozen(blocks: set<nat>, slots: map<nat, (nat, nat)>) {
    function Without(a: nat): Frozen {
      Frozen(blocks - {a}, slots)
    }
  }

  const NOTHING_FROZEN := Frozen({}, map[])

  /**
   * `own` gives the role of every cluster in use or on a free list, `pending` are live clusters
   * whose count is still to be set, `frozen` the clusters the tables last committed to disk use.
   */
  datatype Ledger = Ledger(own: map<nat, Role>, pending: set<nat>, frozen: Frozen)

  /** Cluster `a` overlaps the header, the L1 table or the refcount table. */
  predicate Reserved(g: Geometry, a: nat) {
    || a == 0
    || (a < g.l1Offset + 8 * g.l1Len && g.l1Offset < a + g.clusterSize)
    || (a < g.refTableOffset + 8 * g.refTableLen && g.refTableOffset < a + g.clusterSize)
  }

  predicate InFile(g: Geometry, b: seq<byte>) {
    && g.l1Offset + 8 * g.l1Len <= |b|
    && g.refTableOffset + 8 * g.refTableLen <= |b|
    && 0 < |b|
  }

  /** The cluster at `a` is cut off by the end of a file of `n` bytes. */
  predicate TailCluster(cs: nat, n: nat, a: nat)
    requires 0 < cs
  {
    a % cs == 0 && a < n < a + cs
  }

  ghost predicate OwnedOk(g: Geometry, b: seq<byte>, own: map<nat, Role>)
    requires 0 < g.clusterSize
  {
    && |b| <= g.limit
    && (forall a :: a in own ==>
          a % g.clusterSize == 0 && a < |b| && a + g.clusterSize <= g.limit
          && (!own[a].Fixed? ==> a + g.clusterSize <= |b|))
    && (forall a: nat {:trigger Reserved(g, a)} :: a % g.clusterSize == 0 && Reserved(g, a) ==>
          a in own && own[a].Fixed?)
    && (forall a: nat {:trigger TailCluster(g.clusterSize, |b|, a)} :: TailCluster(g.clusterSize, |b|, a) ==>
          a in own && own[a].Fixed?)
  }

  /** The cluster at `a` is where a cluster of role `r` has to be. */
  predicate InPlace(s: Image, a: nat, r: Role) {
    match r
    case L2Table(i) => i < |s.l2.top| && s.l2.top[i] == a
    case RefBlock(t) => t < |s.rc.top| && s.rc.top[t] == a
    case Avail(k) => k < |s.avail| && s.avail[k] == a
    case Unref(k) => k < |s.unref| && s.unref[k] == a
    case _ => true
  }

  /** Every pointer and every free-list entry agrees with the ledger, and the other way round. */
  ghost predicate LinkedOk(g: Geometry, s: Image, own: map<nat, Role>) {
    && PlacesOk(s, own)
    && MappedOk(g, s, own)
  }

  ghost predicate PlacesOk(s: Image, own: map<nat, Role>) {
    && (forall a :: a in own ==> InPlace(s, a, own[a]))
    && (forall i :: 0 <= i < |s.l2.top| && s.l2.top[i] != 0 ==>
          s.l2.top[i] in own && own[s.l2.top[i]] == L2Table(i))
    && (forall t :: 0 <= t < |s.rc.top| && s.rc.top[t] != 0 ==>
          s.rc.top[t] in own && own[s.rc.top[t]] == RefBlock(t))
    && (forall k :: 0 <= k < |s.avail| ==> s.avail[k] in own && own[s.avail[k]] == Avail(k))
    && (forall k :: 0 <= k < |s.unref| ==> s.unref[k] in own && own[s.unref[k]] == Unref(k))
  }

  ghost predicate MappedOk(g: Geometry, s: Image, own: map<nat, Role>) {
    forall i: nat, j: nat :: var d := Entry(g.clusterSize, s.bytes, s.l2, i, j);
                             d != 0 ==> d in own && own[d] == Data(i, j)
  }

  /** Where the reference count of the cluster at `a` is kept. */
  function RefIndex(g: Geometry, a: nat): (nat, nat)
    requires 2 <= g.clusterSize
  {
    (a / g.clusterSize / (g.clusterSize / 2), a / g.clusterSize % (g.clusterSize / 2))
  }

  /** The logical reference count: cached block, else block on disk, else 0. */
  function Count(g: Geometry, b: seq<byte>, rc: Level, a: nat): nat
    requires 2 <= g.clusterSize
  {
    var (t, k) := RefIndex(g, a);
    Entry(g.clusterSize, b, rc, t, k)
  }

  ghost predicate CountedOk(g: Geometry, s: Image, own: map<nat, Role>, pending: set<nat>)
    requires 2 <= g.clusterSize
  {
    forall a :: a in own && Live(own[a]) && a !in pending ==> Count(g, s.bytes, s.rc, a) >= 1
  }

  /** A cluster in this role is not written before the next commit. */
  predicate Still(s: Image, r: Role) {
    match r
    case L2Table(i) => !IsDirty(s.l2.cache, i)
    case RefBlock(t) => !IsDirty(s.rc.cache, t)
    case Unref(_) => true
    case Dropped => true
    case _ => false
  }

  ghost predicate FrozenOk(s: Image, own: map<nat, Role>, frozen: Frozen) {
    && (forall a :: a in frozen.blocks ==> a in own && Still(s, own[a]))
    && SlotsOk(own, frozen.slots)
  }

  /** A data cluster the disk maps is still mapped there in memory, or waits for the next commit. */
  predicate Parked(r: Role, slot: (nat, nat)) {
    r == Data(slot.0, slot.1) || r.Unref? || r.Dropped?
  }

  ghost predicate SlotsOk(own: map<nat, Role>, slots: map<nat, (nat, nat)>) {
    forall d :: d in slots ==> d in own && Parked(own[d], slots[d])
  }

  ghost predicate ShapeOk(g: Geometry, s: Image) {
    && GeometryOk(g)
    && s.l2.kind == Pointers && |s.l2.top| == g.l1Len
    && s.rc.kind == Counts && |s.rc.top| == g.refTableLen
    && InFile(g, s.bytes)
    && LevelOk(g.clusterSize, s.bytes, s.l2)
    && LevelOk(g.clusterSize, s.bytes, s.rc)
  }

  ghost predicate Inv(g: Geometry, s: Image, k: Ledger) {
    && ShapeOk(g, s)
    && OwnedOk(g, s.bytes, k.own)
    && LinkedOk(g, s, k.own)
    && CountedOk(g, s, k.own, k.pending)
    && FrozenOk(s, k.own, k.frozen)
  }

  function L1Area(g: Geometry, b: seq<byte>): seq<byte>
    requires InFile(g, b)
  {
    b[g.l1Offset..g.l1Offset + 8 * g.l1Len]
  }

  function RefTableArea(g: Geometry, b: seq<byte>): seq<byte>
    requires InFile(g, b)
  {
    b[g.refTableOffset..g.refTableOffset + 8 * g.refTableLen]
  }

  /** The L1 and refcount table areas of the file are as before. */
  ghost predicate SameAreas(g: Geometry, b: seq<byte>, b': seq<byte>) {
    && InFile(g, b) && InFile(g, b')
    && L1Area(g, b') == L1Area(g, b)
    && RefTableArea(g, b') == RefTableArea(g, b)
  }

  /** The tables a reader of the file finds. */
  function DiskL1(g: Geometry, b: seq<byte>): seq<nat>
    requires InFile(g, b)
  {
    DecodePointers(L1Area(g, b), g.l1Len, true)
  }

  function DiskRefTable(g: Geometry, b: seq<byte>): seq<nat>
    requires InFile(g, b)
  {
    DecodePointers(RefTableArea(g, b), g.refTableLen, false)
  }

  // The virtual disk.

  /** L1 and L2 index of virtual cluster `c`. */
  function MapIndex(g: Geometry, c: nat): (nat, nat)
    requires 8 <= g.clusterSize
  {
    (c / (g.clusterSize / 8), c % (g.clusterSize / 8))
  }

  /** The data cluster virtual cluster `c` is mapped to, or 0. */
  function MapEntry(g: Geometry, b: seq<byte>, l2: Level, c: nat): nat
    requires 8 <= g.clusterSize
  {
    var (i, j) := MapIndex(g, c);
    Entry(g.clusterSize, b, l2, i, j)
  }

  function VirtualCluster(g: Geometry, v: nat): nat
    requires 0 < g.clusterSize
  {
    v / g.clusterSize
  }

  /** `cluster_offset`: the position of `v` within its cluster. */
  function ClusterOffset(g: Geometry, v: nat): (o: nat)
    requires 0 < g.clusterSize
    ensures o < g.clusterSize
  {
    v % g.clusterSize
  }

  /** The byte a guest reads at `v`: unallocated clusters read as zero. */
  function ByteAt(g: Geometry, b: seq<byte>, l2: Level, v: nat): byte
    requires 8 <= g.clusterSize
  {
    ByteIn(b, MapEntry(g, b, l2, VirtualCluster(g, v)), ClusterOffset(g, v))
  }

  ghost function Contents(g: Geometry, b: seq<byte>, l2: Level): (d: seq<byte>)
    requires 8 <= g.clusterSize
    ensures |d| == g.size
    ensures forall v :: 0 <= v < g.size ==> d[v] == ByteAt(g, b, l2, v)
  {
    seq(g.size, v requires 0 <= v => ByteAt(g, b, l2, v))
  }
}
