/** Rebuilding the reference counts of an image from the references found in its tables. */
module QcowRebuilds {
  import opened Arithmetic
  import opened HostBytes
  import opened PointerTables
  import opened Wrappers
  import opened CachedTables
  import opened Journals
  import opened QcowImage
  import opened QcowRawFiles
  import opened QcowHeaders
  import opened QcowLayouts

  const MAX_RAM_POINTER_TABLE_SIZE: nat := 35_000_000
  const COUNT_LIMIT: nat := 0x1_0000  // counts are 16-bit words and wrap around

  datatype RebuildError = InvalidRefcountTableSize | InvalidClusterIndex | ReadingPointers | NotEnoughSpaceForRefcounts

  // References.

  /** How many of the addresses lie in cluster number `i`. */
  function Tally(refs: seq<nat>, cs: nat, i: nat): nat
    requires 0 < cs
  {
    if refs == [] then 0 else
    var n := |refs| - 1;
    Tally(refs[..n], cs, i) + if refs[n] / cs == i then 1 else 0
  }

  ghost predicate Counted(counts: seq<nat>, refs: seq<nat>, cs: nat)
    requires 0 < cs
  {
    && (forall i :: 0 <= i < |counts| ==> counts[i] == Tally(refs, cs, i) % COUNT_LIMIT)
    && AllBelow(refs, cs, |counts|)
  }

  lemma CountedMore(counts: seq<nat>, refs: seq<nat>, cs: nat, a: nat)
    requires 0 < cs && Counted(counts, refs, cs) && a / cs < |counts|
    ensures Counted(counts[a / cs := (counts[a / cs] + 1) % COUNT_LIMIT], refs + [a], cs)
  {
    hide AllBelow, Tally;
    var counts' := counts[a / cs := (counts[a / cs] + 1) % COUNT_LIMIT];
    forall k | 0 <= k < |counts|
      ensures counts'[k] == Tally(refs + [a], cs, k) % COUNT_LIMIT
    {
      TallyOneMore(refs, a, cs, k);
    }
    BelowJoin(refs, [a], cs, |counts|);
    OneBelow(a, cs, |counts|);
  }

  lemma TallyOneMore(refs: seq<nat>, a: nat, cs: nat, k: nat)
    requires 0 < cs
    ensures Tally(refs + [a], cs, k) == Tally(refs, cs, k) + if a / cs == k then 1 else 0
  {
    assert (refs + [a])[..|refs|] == refs;
  }

  lemma OneBelow(a: nat, cs: nat, n: nat)
    requires 0 < cs && a / cs < n
    ensures AllBelow([a], cs, n)
  {
  }

  lemma BelowJoin(refs: seq<nat>, more: seq<nat>, cs: nat, n: nat)
    requires 0 < cs
    ensures AllBelow(refs + more, cs, n) <==> AllBelow(refs, cs, n) && AllBelow(more, cs, n)
  {
    if AllBelow(refs + more, cs, n) {
      forall a | a in refs
        ensures a / cs < n
      {
        assert a in refs + more;
      }
      forall a | a in more
        ensures a / cs < n
      {
        assert a in refs + more;
      }
    }
  }

  lemma CountedBelow(counts: seq<nat>, refs: seq<nat>, more: seq<nat>, cs: nat)
    requires 0 < cs && Counted(counts, refs + more, cs)
    ensures AllBelow(more, cs, |counts|)
  {
    BelowJoin(refs, more, cs, |counts|);
  }

  /** Every address lies in one of the first `n` clusters. */
  predicate AllBelow(refs: seq<nat>, cs: nat, n: nat)
    requires 0 < cs
  {
    forall a :: a in refs ==> a / cs < n
  }

  /** `n` clusters in a row. */
  function Row(start: nat, cs: nat, n: nat): seq<nat> {
    if n == 0 then [] else Row(start, cs, n - 1) + [start + (n - 1) * cs]
  }

  function NonZero(t: seq<nat>): seq<nat> {
    if t == [] then [] else
    var n := |t| - 1;
    NonZero(t[..n]) + if t[n] != 0 then [t[n]] else []
  }

  /** The L2 table at `a` and the data clusters it points to. */
  function TableRefs(b: seq<byte>, cs: nat, a: nat): seq<nat>
    requires cs % 8 == 0
  {
    if a == 0 then [] else [a] + if a + cs <= |b| then NonZero(DecodePointers(Cluster(cs, b, a), cs / 8, true)) else []
  }

  function MapRefs(b: seq<byte>, cs: nat, l1: seq<nat>): seq<nat>
    requires cs % 8 == 0
  {
    if l1 == [] then [] else
    var n := |l1| - 1;
    MapRefs(b, cs, l1[..n]) + TableRefs(b, cs, l1[n])
  }

  function L1Of(b: seq<byte>, h: Header): seq<nat>
    requires h.l1TableOffset + 8 * h.l1Size <= |b|
  {
    DecodePointers(b[h.l1TableOffset..h.l1TableOffset + 8 * h.l1Size], h.l1Size, true)
  }

  /** Every reference in the file: header, L1 table, L2 tables, data, refcount table. */
  function References(b: seq<byte>, cs: nat, h: Header): seq<nat>
    requires 0 < cs && cs % 8 == 0 && h.l1TableOffset + 8 * h.l1Size <= |b|
  {
    [0] + Row(h.l1TableOffset, cs, CeilDiv(h.l1Size, cs)) + MapRefs(b, cs, L1Of(b, h)) +
    Row(h.refcountTableOffset, cs, h.refcountTableClusters)
  }

  // Counting.

  method AddRef(counts: array<nat>, cs: nat, address: nat, ghost refs: seq<nat>) returns (ok: bool)
    requires 0 < cs && Counted(counts[..], refs, cs)
    modifies counts
    ensures ok <==> address / cs < counts.Length
    ensures ok ==> Counted(counts[..], refs + [address], cs)
  {
    var idx := address / cs;
    if idx >= counts.Length {
      return false;
    }
    CountedMore(counts[..], refs, cs, address);
    counts[idx] := (counts[idx] + 1) % COUNT_LIMIT;
    return true;
  }

  /** Adds a reference to each of `n` clusters in a row. */
  method AddRow(counts: array<nat>, cs: nat, start: nat, n: nat, ghost refs: seq<nat>) returns (ok: bool)
    requires 0 < cs && Counted(counts[..], refs, cs)
    modifies counts
    ensures ok <==> AllBelow(Row(start, cs, n), cs, counts.Length)
    ensures ok ==> Counted(counts[..], refs + Row(start, cs, n), cs)
  {
    hide Counted;
    assert refs + Row(start, cs, 0) == refs;
    for i := 0 to n
      invariant Counted(counts[..], refs + Row(start, cs, i), cs)
    {
      ok := AddRef(counts, cs, start + i * cs, refs + Row(start, cs, i));
      if !ok {
        RowMember(start, cs, n, i);
        assert start + i * cs in Row(start, cs, n);
        return;
      }
      assert refs + Row(start, cs, i) + [start + i * cs] == refs + Row(start, cs, i + 1);
    }
    CountedBelow(counts[..], refs, Row(start, cs, n), cs);
    ok := true;
  }

  /** Adds a reference to every cluster a table points to. */
  method AddEntries(counts: array<nat>, cs: nat, table: seq<nat>, ghost refs: seq<nat>) returns (ok: bool)
    requires 0 < cs && Counted(counts[..], refs, cs)
    modifies counts
    ensures ok <==> AllBelow(NonZero(table), cs, counts.Length)
    ensures ok ==> Counted(counts[..], refs + NonZero(table), cs)
  {
    hide Counted;
    assert refs + NonZero(table[..0]) == refs;
    for i := 0 to |table|
      invariant Counted(counts[..], refs + NonZero(table[..i]), cs)
    {
      assert table[..i + 1][..i] == table[..i];
      assert NonZero(table[..i + 1]) == NonZero(table[..i]) + if table[i] != 0 then [table[i]] else [];
      if table[i] != 0 {
        ok := AddRef(counts, cs, table[i], refs + NonZero(table[..i]));
        if !ok {
          NonZeroHas(table, i);
          return;
        }
        assert refs + NonZero(table[..i]) + [table[i]] == refs + NonZero(table[..i + 1]);
      } else {
        assert refs + NonZero(table[..i]) == refs + NonZero(table[..i + 1]);
      }
    }
    assert table[..|table|] == table;
    CountedBelow(counts[..], refs, NonZero(table), cs);
    ok := true;
  }

  lemma {:induction false} NonZeroHas(t: seq<nat>, i: nat)
    requires i < |t| && t[i] != 0
    ensures t[i] in NonZero(t)
  {
    if i < |t| - 1 {
      NonZeroHas(t[..|t| - 1], i);
    }
  }

  /** Adds the references of one L2 table: the table itself and its data clusters. */
  method AddTable(raw: QcowRawFile, counts: array<nat>, a: nat, ghost refs: seq<nat>) returns (e: Option<RebuildError>)
    requires 0 < raw.clusterSize && raw.clusterSize % 8 == 0 && Counted(counts[..], refs, raw.clusterSize)
    modifies counts
    ensures e.None? <==> (a == 0 || a + raw.clusterSize <= |raw.bytes|)
                         && AllBelow(TableRefs(raw.bytes, raw.clusterSize, a), raw.clusterSize, counts.Length)
    ensures e.None? ==> Counted(counts[..], refs + TableRefs(raw.bytes, raw.clusterSize, a), raw.clusterSize)
  {
    hide Counted, DecodePointers;
    var cs := raw.clusterSize;
    if a == 0 {
      assert refs + TableRefs(raw.bytes, cs, a) == refs;
      return None;
    }
    var ok := AddRef(counts, cs, a, refs);
    if !ok {
      assert a in TableRefs(raw.bytes, cs, a);
      return Some(InvalidClusterIndex);
    }
    var table := raw.ReadPointerTable(a, cs / 8, true);
    if table.Err? {
      return Some(ReadingPointers);
    }
    WholeWords(cs);
    ok := AddEntries(counts, cs, table.value, refs + [a]);
    BelowJoin([a], NonZero(table.value), cs, counts.Length);
    assert TableRefs(raw.bytes, cs, a) == [a] + NonZero(table.value);
    assert refs + [a] + NonZero(table.value) == refs + TableRefs(raw.bytes, cs, a);
    return if ok then None else Some(InvalidClusterIndex);
  }

  method AddData(raw: QcowRawFile, counts: array<nat>, h: Header, ghost refs: seq<nat>)
    returns (e: Option<RebuildError>)
    requires 0 < raw.clusterSize && raw.clusterSize % 8 == 0 && Counted(counts[..], refs, raw.clusterSize)
    modifies counts
    ensures e.None? <==> MapReadable(raw.bytes, raw.clusterSize, h)
                         && AllBelow(MapRefs(raw.bytes, raw.clusterSize, L1Of(raw.bytes, h)), raw.clusterSize,
                                     counts.Length)
    ensures e.None? ==>
              Counted(counts[..], refs + MapRefs(raw.bytes, raw.clusterSize, L1Of(raw.bytes, h)), raw.clusterSize)
  {
    hide Counted, DecodePointers, TableRefs;
    var cs := raw.clusterSize;
    var l1 := raw.ReadPointerTable(h.l1TableOffset, h.l1Size, true);
    if l1.Err? {
      return Some(ReadingPointers);
    }
    var l1Table := l1.value;
    assert l1Table == L1Of(raw.bytes, h);
    assert refs + MapRefs(raw.bytes, cs, l1Table[..0]) == refs;
    for i := 0 to h.l1Size
      invariant Counted(counts[..], refs + MapRefs(raw.bytes, cs, l1Table[..i]), cs)
      invariant forall k :: 0 <= k < i ==> l1Table[k] == 0 || l1Table[k] + cs <= |raw.bytes|
    {
      assert l1Table[..i + 1][..i] == l1Table[..i];
      e := AddTable(raw, counts, l1Table[i], refs + MapRefs(raw.bytes, cs, l1Table[..i]));
      if e.Some? {
        MapRefsHas(raw.bytes, cs, l1Table, i, counts.Length);
        return;
      }
      assert refs + MapRefs(raw.bytes, cs, l1Table[..i]) + TableRefs(raw.bytes, cs, l1Table[i]) ==
             refs + MapRefs(raw.bytes, cs, l1Table[..i + 1]);
    }
    assert l1Table[..h.l1Size] == l1Table;
    CountedBelow(counts[..], refs, MapRefs(raw.bytes, cs, l1Table), cs);
    e := None;
  }

  /** The L1 table and every L2 table it points to lie within the file. */
  predicate MapReadable(b: seq<byte>, cs: nat, h: Header) {
    && h.l1TableOffset + 8 * h.l1Size <= |b|
    && var l1 := L1Of(b, h); forall i :: 0 <= i < |l1| ==> l1[i] == 0 || l1[i] + cs <= |b|
  }

  lemma {:induction false} MapRefsHas(b: seq<byte>, cs: nat, l1: seq<nat>, i: nat, n: nat)
    requires 0 < cs && cs % 8 == 0 && i < |l1|
    ensures AllBelow(MapRefs(b, cs, l1), cs, n) ==> AllBelow(TableRefs(b, cs, l1[i]), cs, n)
  {
    hide AllBelow, TableRefs;
    var m := |l1| - 1;
    BelowJoin(MapRefs(b, cs, l1[..m]), TableRefs(b, cs, l1[m]), cs, n);
    if i < m {
      MapRefsHas(b, cs, l1[..m], i, n);
    }
  }

  /** Counts every reference in the file. */
  method CountReferences(raw: QcowRawFile, counts: array<nat>, h: Header) returns (e: Option<RebuildError>)
    requires 0 < raw.clusterSize && raw.clusterSize % 8 == 0
    requires forall i :: 0 <= i < counts.Length ==> counts[i] == 0
    modifies counts
    ensures e.None? <==> MapReadable(raw.bytes, raw.clusterSize, h)
                         && AllBelow(References(raw.bytes, raw.clusterSize, h), raw.clusterSize, counts.Length)
    ensures e.None? ==> Counted(counts[..], References(raw.bytes, raw.clusterSize, h), raw.clusterSize)
  {
    hide Counted, MapReadable, MapRefs, L1Of;
    var cs := raw.clusterSize;
    if MapReadable(raw.bytes, cs, h) {
      ReadableL1(raw.bytes, cs, h);
      ReferencesBelow(raw.bytes, cs, h, counts.Length);
    }
    NothingCounted(counts[..], cs);
    var ok := AddRef(counts, cs, 0, []);
    if !ok {
      return Some(InvalidClusterIndex);
    }
    ghost var refs := [0];
    assert [] + [0] == refs;
    ok := AddRow(counts, cs, h.l1TableOffset, CeilDiv(h.l1Size, cs), refs);
    if !ok {
      return Some(InvalidClusterIndex);
    }
    refs := refs + Row(h.l1TableOffset, cs, CeilDiv(h.l1Size, cs));
    e := AddData(raw, counts, h, refs);
    if e.Some? {
      return;
    }
    refs := refs + MapRefs(raw.bytes, cs, L1Of(raw.bytes, h));
    ok := AddRow(counts, cs, h.refcountTableOffset, h.refcountTableClusters, refs);
    return if ok then None else Some(InvalidClusterIndex);
  }

  lemma NothingCounted(counts: seq<nat>, cs: nat)
    requires 0 < cs && forall i :: 0 <= i < |counts| ==> counts[i] == 0
    ensures Counted(counts, [], cs)
  {
  }

  lemma ReadableL1(b: seq<byte>, cs: nat, h: Header)
    requires MapReadable(b, cs, h)
    ensures h.l1TableOffset + 8 * h.l1Size <= |b|
  {
  }

  lemma ReferencesBelow(b: seq<byte>, cs: nat, h: Header, n: nat)
    requires 0 < cs && cs % 8 == 0 && h.l1TableOffset + 8 * h.l1Size <= |b|
    ensures AllBelow(References(b, cs, h), cs, n) <==>
            && 0 < n && AllBelow(Row(h.l1TableOffset, cs, CeilDiv(h.l1Size, cs)), cs, n)
            && AllBelow(MapRefs(b, cs, L1Of(b, h)), cs, n)
            && AllBelow(Row(h.refcountTableOffset, cs, h.refcountTableClusters), cs, n)
  {
    hide AllBelow;
    var l1, data, rt := Row(h.l1TableOffset, cs, CeilDiv(h.l1Size, cs)), MapRefs(b, cs, L1Of(b, h)),
                        Row(h.refcountTableOffset, cs, h.refcountTableClusters);
    BelowJoin([0] + l1 + data, rt, cs, n);
    BelowJoin([0] + l1, data, cs, n);
    BelowJoin([0], l1, cs, n);
    FirstBelow(cs, n);
  }

  lemma FirstBelow(cs: nat, n: nat)
    requires 0 < cs
    ensures AllBelow([0], cs, n) <==> 0 < n
  {
    assert 0 in [0];
  }

  // The new refcount blocks.

  /** The clusters below cluster number `n` that count as free. */
  function FreeBelow(refs: seq<nat>, cs: nat, n: nat): nat
    requires 0 < cs
  {
    if n == 0 then 0 else FreeBelow(refs, cs, n - 1) + if IsFree(refs, cs, n - 1) then 1 else 0
  }

  /** Cluster number `i` counts as free: no reference, or so many that the count came round to zero. */
  predicate IsFree(refs: seq<nat>, cs: nat, i: nat)
    requires 0 < cs
  {
    Tally(refs, cs, i) % COUNT_LIMIT == 0
  }

  /** The blocks lie on the first clusters that count as free, in order. */
  ghost predicate OnFreeClusters(table: seq<nat>, refs: seq<nat>, cs: nat, n: nat)
    requires 0 < cs
  {
    forall k :: 0 <= k < |table| ==> FreeNumber(refs, cs, n, table[k], k)
  }

  /** `a` is the address of the `k`-th cluster that counts as free, one of the first `n`. */
  ghost predicate FreeNumber(refs: seq<nat>, cs: nat, n: nat, a: nat, k: nat)
    requires 0 < cs
  {
    a % cs == 0 && a / cs < n && IsFree(refs, cs, a / cs) && FreeBelow(refs, cs, a / cs) == k
  }

  lemma {:induction false} FreeGrows(refs: seq<nat>, cs: nat, m: nat, n: nat)
    requires 0 < cs && m <= n
    ensures FreeBelow(refs, cs, m) <= FreeBelow(refs, cs, n)
    ensures m < n && IsFree(refs, cs, m) ==> FreeBelow(refs, cs, m) < FreeBelow(refs, cs, n)
  {
    if m < n {
      FreeGrows(refs, cs, m, n - 1);
    }
  }

  /** Where blocks are is settled by their numbers, so they are in ascending order. */
  lemma FreeOrder(refs: seq<nat>, cs: nat, n: nat, a: nat, k: nat, b: nat, m: nat)
    requires 0 < cs && FreeNumber(refs, cs, n, a, k) && FreeNumber(refs, cs, n, b, m) && k < m
    ensures a < b && a / cs < b / cs
  {
    var i, j := a / cs, b / cs;
    hide FreeBelow, IsFree;
    if j <= i {
      FreeGrows(refs, cs, j, i);
    }
    assert i < j;
    AlignedProduct(a, cs);
    AlignedProduct(b, cs);
    MulOrdered(i, j, cs);
  }

  /** The next cluster from `from` on with a count of zero. */
  method NextFree(counts: array<nat>, from: nat) returns (i: nat)
    requires from <= counts.Length
    ensures from <= i <= counts.Length
    ensures forall k :: from <= k < i ==> counts[k] != 0
    ensures i < counts.Length ==> counts[i] == 0
  {
    i := from;
    while i < counts.Length && counts[i] != 0
      invariant from <= i <= counts.Length
      invariant forall k :: from <= k < i ==> counts[k] != 0
    {
      i := i + 1;
    }
  }

  /** Takes the first free clusters for the refcount blocks and counts them as referenced. */
  method AllocRefblocks(counts: array<nat>, cs: nat, entries: nat, ghost refs: seq<nat>)
    returns (e: Option<RebuildError>, table: seq<nat>)
    requires 0 < cs && Counted(counts[..], refs, cs)
    modifies counts
    ensures e.None? <==> entries <= FreeBelow(refs, cs, counts.Length)
    ensures e.None? ==>
              && |table| == entries && OnFreeClusters(table, refs, cs, counts.Length)
              && Counted(counts[..], refs + table, cs)
  {
    hide FreeNumber, Counted, FreeBelow;
    table := [];
    var first := 0;
    assert refs + table == refs;
    FreeFromStart(refs, cs);
    for k := 0 to entries
      invariant |table| == k && first <= counts.Length && FreeBelow(refs, cs, first) == k
      invariant OnFreeClusters(table, refs, cs, counts.Length) && Counted(counts[..], refs + table, cs)
      invariant BlocksBelow(table, cs, first)
    {
      var next := NextFree(counts, first);
      SkipUsed(counts[..], refs, table, cs, first, next);
      first := next;
      if first >= counts.Length {
        return Some(NotEnoughSpaceForRefcounts), [];
      }
      TakeCluster(counts[..], refs, table, cs, first);
      var _ := AddRef(counts, cs, first * cs, refs + table);
      assert refs + table + [first * cs] == refs + (table + [first * cs]);
      table := table + [first * cs];
      FreeGrows(refs, cs, first + 1, counts.Length);
      first := first + 1;
    }
    FreeGrows(refs, cs, first, counts.Length);
    e := None;
  }

  lemma FreeFromStart(refs: seq<nat>, cs: nat)
    requires 0 < cs
    ensures FreeBelow(refs, cs, 0) == 0
  {
  }

  /** The blocks placed so far lie below cluster number `n`. */
  predicate BlocksBelow(table: seq<nat>, cs: nat, n: nat)
    requires 0 < cs
  {
    forall a :: a in table ==> a / cs < n
  }

  lemma CountIs(counts: seq<nat>, refs: seq<nat>, table: seq<nat>, cs: nat, i: nat)
    requires 0 < cs && Counted(counts, refs + table, cs) && i < |counts| && BlocksBelow(table, cs, i)
    ensures counts[i] == 0 <==> IsFree(refs, cs, i)
  {
    TallyElsewhere(refs, table, cs, i);
  }

  lemma {:induction false} SkipUsed(counts: seq<nat>, refs: seq<nat>, table: seq<nat>, cs: nat, from: nat, next: nat)
    requires 0 < cs && Counted(counts, refs + table, cs) && from <= next <= |counts| && BlocksBelow(table, cs, from)
    requires forall k :: from <= k < next ==> counts[k] != 0
    ensures FreeBelow(refs, cs, next) == FreeBelow(refs, cs, from) && BlocksBelow(table, cs, next)
    decreases next
  {
    hide Counted;
    if from < next {
      SkipUsed(counts, refs, table, cs, from, next - 1);
      CountIs(counts, refs, table, cs, next - 1);
    }
  }

  /** A cluster that counts as free behind the blocks already placed gets the next one. */
  lemma TakeCluster(counts: seq<nat>, refs: seq<nat>, table: seq<nat>, cs: nat, i: nat)
    requires 0 < cs && Counted(counts, refs + table, cs) && i < |counts| && counts[i] == 0
    requires OnFreeClusters(table, refs, cs, |counts|) && BlocksBelow(table, cs, i)
    requires FreeBelow(refs, cs, i) == |table|
    ensures i * cs / cs == i && OnFreeClusters(table + [i * cs], refs, cs, |counts|)
    ensures BlocksBelow(table + [i * cs], cs, i + 1) && FreeBelow(refs, cs, i + 1) == |table| + 1
  {
    hide Counted, IsFree;
    MultipleAligned(cs, i);
    CountIs(counts, refs, table, cs, i);
    assert FreeNumber(refs, cs, |counts|, i * cs, |table|);
  }

  lemma {:induction false} TallyElsewhere(refs: seq<nat>, more: seq<nat>, cs: nat, i: nat)
    requires 0 < cs && forall a :: a in more ==> a / cs != i
    ensures Tally(refs + more, cs, i) == Tally(refs, cs, i)
  {
    if more == [] {
      assert refs + more == refs;
    } else {
      var n := |more| - 1;
      assert (refs + more)[..|refs| + n] == refs + more[..n];
      assert more[n] in more && forall a :: a in more[..n] ==> a in more;
      TallyElsewhere(refs, more[..n], cs, i);
    }
  }

  /** The counts block `k` holds, padded with zeros. */
  function CountBlock(counts: seq<nat>, n: nat, k: nat): seq<nat> {
    seq(n, j requires 0 <= j => if k * n + j < |counts| then counts[k * n + j] else 0)
  }

  /** No table is protected while counts are rebuilt. */
  ghost predicate Unprotected(raw: QcowRawFile)
    reads raw
  {
    && raw.Valid() && raw.journal.slots == map[]
    && NothingKept(raw.journal.mapBook.commit) && NothingKept(raw.journal.refBook.commit)
  }

  predicate NothingKept(c: Commit) {
    c.count == 0 && c.frozen == {} && c.lo == 0
  }

  /** Byte `p` of a file that reads as zero behind its end. */
  function ByteOf(b: seq<byte>, p: nat): byte {
    if p < |b| then b[p] else 0
  }

  predicate OutsideRange(lo: nat, n: nat, p: nat) {
    p < lo || lo + n <= p
  }

  /** The file after `d` was written at `off`, which may be behind its end. */
  function Put(b: seq<byte>, off: nat, d: seq<byte>): (b': seq<byte>)
    ensures |b'| == if off + |d| <= |b| then |b| else off + |d|
  {
    Splice(b + Zeros(if off + |d| <= |b| then 0 else off + |d| - |b|), off, d)
  }

  lemma PutFrame(b: seq<byte>, off: nat, d: seq<byte>)
    ensures Put(b, off, d)[off..off + |d|] == d
    ensures forall p :: 0 <= p < |Put(b, off, d)| && OutsideRange(off, |d|, p) ==> Put(b, off, d)[p] == ByteOf(b, p)
  {
  }

  method PutAt(raw: QcowRawFile, off: nat, d: seq<byte>)
    requires Unprotected(raw)
    modifies raw
    ensures Unprotected(raw) && raw.bytes == Put(old(raw.bytes), off, d)
  {
    hide JournalOk;
    if off + |d| > |raw.bytes| {
      raw.SetLen(off + |d|);
    } else {
      assert raw.bytes + Zeros(0) == raw.bytes;
    }
    raw.WriteAt(off, d);
  }

  // The header.

  const LAZY_REFCOUNTS: nat := 1

  function Lazy(h: Header): Header {
    h.(compatibleFeatures := if h.compatibleFeatures % 2 == LAZY_REFCOUNTS then h.compatibleFeatures
                             else h.compatibleFeatures + LAZY_REFCOUNTS)
  }

  function NotLazy(h: Header): Header {
    h.(compatibleFeatures := h.compatibleFeatures / 2 * 2)
  }

  /** Bytes set aside for the refcount table. */
  function TableRoom(cs: nat, h: Header): nat {
    h.refcountTableClusters * cs
  }

  /** The last byte but one of the clusters of the refcount table. */
  function LastTouched(cs: nat, h: Header): int {
    h.refcountTableOffset + TableRoom(cs, h) - 2
  }

  /**
   * `write_to`: the header goes to the start of the file, and a zero to the last byte but one of the
   * refcount table, so that the file reaches to (nearly) the end of the table.
   */
  function HeaderPut(b: seq<byte>, cs: nat, h: Header): seq<byte>
    requires 0 <= LastTouched(cs, h)
  {
    Put(Put(b, 0, EncodeHeader(h)), LastTouched(cs, h), [0])
  }

  method WriteHeader(raw: QcowRawFile, h: Header)
    requires Unprotected(raw) && 0 <= LastTouched(raw.clusterSize, h)
    modifies raw
    ensures Unprotected(raw) && raw.bytes == HeaderPut(old(raw.bytes), raw.clusterSize, h)
  {
    PutAt(raw, 0, EncodeHeader(h));
    PutAt(raw, LastTouched(raw.clusterSize, h), [0]);
  }

  /** Apart from the header and that one byte the file reads as before. */
  lemma HeaderFrame(b: seq<byte>, cs: nat, h: Header)
    requires 0 <= LastTouched(cs, h)
    ensures var b', x := HeaderPut(b, cs, h), LastTouched(cs, h);
            && |b| <= |b'| && V3_BARE_HEADER_SIZE <= |b'| && x < |b'| && b'[x] == 0
            && (V3_BARE_HEADER_SIZE <= |b| && x < |b| ==> |b'| == |b|)
            && (V3_BARE_HEADER_SIZE <= x && |b| <= x ==> |b'| == x + 1)
            && (V3_BARE_HEADER_SIZE <= x ==> b'[..V3_BARE_HEADER_SIZE] == EncodeHeader(h))
            && forall p :: V3_BARE_HEADER_SIZE <= p < |b'| && p != x ==> b'[p] == ByteOf(b, p)
  {
    hide Put;
    var b1, x: nat := Put(b, 0, EncodeHeader(h)), LastTouched(cs, h);
    PutFrame(b, 0, EncodeHeader(h));
    PutFrame(b1, x, [0]);
    assert HeaderPut(b, cs, h)[x..x + 1][0] == 0;
    assert b1[0..0 + V3_BARE_HEADER_SIZE] == b1[..V3_BARE_HEADER_SIZE];
  }

  /** Writes one block, behind the end of the file if need be. */
  method WriteBlock(raw: QcowRawFile, address: nat, block: seq<nat>)
    requires Unprotected(raw) && 2 * |block| == raw.clusterSize
    requires forall i :: 0 <= i < |block| ==> block[i] < COUNT_LIMIT
    modifies raw
    ensures Unprotected(raw) && raw.bytes == Put(old(raw.bytes), address, EncodeCounts(block))
    ensures DecodeBlock(Counts, raw.clusterSize, Cluster(raw.clusterSize, raw.bytes, address)) == block
  {
    hide JournalOk, DecodeCounts, EncodeCounts;
    if address + raw.clusterSize > |raw.bytes| {
      raw.SetLen(address + raw.clusterSize);
    } else {
      assert raw.bytes + Zeros(0) == raw.bytes;
    }
    raw.WriteRefcountBlock(address, block);
    CountsRoundTrip(block);
    BlockRoundTrip(Counts, raw.clusterSize, block);
  }

  /** Blocks `0..k` are on disk. */
  ghost predicate BlocksWritten(cs: nat, b: seq<byte>, table: seq<nat>, counts: seq<nat>, k: nat)
    requires cs % 8 == 0 && k <= |table|
  {
    forall m :: 0 <= m < k ==>
      table[m] + cs <= |b| && DecodeBlock(Counts, cs, Cluster(cs, b, table[m])) == CountBlock(counts, cs / 2, m)
  }

  /** Apart from the blocks the file reads as before, and a block is the last thing in it if it grew. */
  ghost predicate OnlyBlocks(cs: nat, b: seq<byte>, b': seq<byte>, table: seq<nat>) {
    && |b| <= |b'| && (forall p :: 0 <= p < |b'| && Outside(cs, table, p) ==> b'[p] == ByteOf(b, p))
    && (|b| < |b'| ==> exists k :: 0 <= k < |table| && |b'| == table[k] + cs)
  }

  /** A range none of the blocks touches was written. */
  lemma BlocksKept(cs: nat, b: seq<byte>, b': seq<byte>, table: seq<nat>, counts: seq<nat>, k: nat, lo: nat, n: nat)
    requires cs % 8 == 0 && k <= |table| && BlocksWritten(cs, b, table, counts, k) && |b| <= |b'|
    requires forall p :: 0 <= p < |b'| && OutsideRange(lo, n, p) ==> b'[p] == ByteOf(b, p)
    requires forall m :: 0 <= m < k ==> table[m] + cs <= lo || lo + n <= table[m]
    ensures BlocksWritten(cs, b', table, counts, k)
  {
    hide DecodeBlock, CountBlock;
    forall m | 0 <= m < k
      ensures table[m] + cs <= |b'|
      ensures DecodeBlock(Counts, cs, Cluster(cs, b', table[m])) == CountBlock(counts, cs / 2, m)
    {
      assert Cluster(cs, b', table[m]) == Cluster(cs, b, table[m]);
    }
  }

  predicate Ascending(table: seq<nat>, cs: nat)
    requires 0 < cs
  {
    && (forall k :: 0 <= k < |table| ==> cs <= table[k] && table[k] % cs == 0)
    && (forall j, k :: 0 <= j < k < |table| ==> table[j] < table[k])
  }

  method WriteBlocks(raw: QcowRawFile, counts: seq<nat>, table: seq<nat>)
    requires Unprotected(raw) && Ascending(table, raw.clusterSize)
    requires forall i :: 0 <= i < |counts| ==> counts[i] < COUNT_LIMIT
    modifies raw
    ensures Unprotected(raw) && BlocksWritten(raw.clusterSize, raw.bytes, table, counts, |table|)
    ensures OnlyBlocks(raw.clusterSize, old(raw.bytes), raw.bytes, table)
  {
    hide JournalOk, DecodeBlock, Put, EncodeCounts;
    var cs := raw.clusterSize;
    for k := 0 to |table|
      invariant Unprotected(raw) && BlocksWritten(cs, raw.bytes, table, counts, k)
      invariant OnlyBlocks(cs, old(raw.bytes), raw.bytes, table)
    {
      ghost var b := raw.bytes;
      WholeWords(cs);
      WriteBlock(raw, table[k], CountBlock(counts, cs / 2, k));
      PutFrame(b, table[k], EncodeCounts(CountBlock(counts, cs / 2, k)));
      forall m | 0 <= m < k
        ensures table[m] + cs <= table[k] || table[k] + cs <= table[m]
      {
        AlignedApart(cs, table[m], table[k]);
      }
      BlocksKept(cs, b, raw.bytes, table, counts, k, table[k], cs);
      OutsideOne(cs, old(raw.bytes), b, raw.bytes, table, k);
    }
  }

  lemma OutsideOne(cs: nat, b0: seq<byte>, b: seq<byte>, b': seq<byte>, table: seq<nat>, k: nat)
    requires k < |table| && table[k] != 0 && OnlyBlocks(cs, b0, b, table)
    requires |b'| == if table[k] + cs <= |b| then |b| else table[k] + cs
    requires forall p :: 0 <= p < |b'| && OutsideRange(table[k], cs, p) ==> b'[p] == ByteOf(b, p)
    ensures OnlyBlocks(cs, b0, b', table)
  {
    forall p | 0 <= p < |b'| && Outside(cs, table, p)
      ensures b'[p] == ByteOf(b0, p)
    {
      assert OutsideRange(table[k], cs, p);
    }
  }

  /** Writes the refcount table, whose area no block touches. */
  method WriteTable(raw: QcowRawFile, offset: nat, table: seq<nat>, ghost counts: seq<nat>)
    requires Unprotected(raw) && BlocksWritten(raw.clusterSize, raw.bytes, table, counts, |table|)
    requires forall k :: 0 <= k < |table| ==> IsPointer(table[k])
    requires forall k :: 0 <= k < |table| ==>
               table[k] + raw.clusterSize <= offset || offset + 8 * |table| <= table[k]
    modifies raw
    ensures Unprotected(raw) && BlocksWritten(raw.clusterSize, raw.bytes, table, counts, |table|)
    ensures raw.bytes == Put(old(raw.bytes), offset, EncodePointers(table, false))
    ensures TableAt(raw.bytes, offset, |table|, false) == table
  {
    hide JournalOk, DecodeBlock, EncodePointers, DecodePointers, TableAt;
    var cs := raw.clusterSize;
    if offset + 8 * |table| > |raw.bytes| {
      raw.SetLen(offset + 8 * |table|);
    } else {
      assert raw.bytes + Zeros(0) == raw.bytes;
    }
    ghost var b := raw.bytes;
    raw.WritePointerTable(offset, table, false);
    TableWritten(b, offset, table, false);
    PutFrame(old(raw.bytes), offset, EncodePointers(table, false));
    BlocksKept(cs, old(raw.bytes), raw.bytes, table, counts, |table|, offset, 8 * |table|);
  }

  /**
   * Writing the header after the table leaves the table and the blocks alone, if the table does not
   * reach the byte that the header clears, or that byte is zero anyway.
   */
  lemma HeaderKeeps(b: seq<byte>, cs: nat, h: Header, table: seq<nat>, counts: seq<nat>)
    requires 512 <= cs && cs % 8 == 0 && V3_BARE_HEADER_SIZE <= h.refcountTableOffset && 0 < h.refcountTableClusters
    requires 8 * |table| <= TableRoom(cs, h) && h.refcountTableOffset + 8 * |table| <= |b|
    requires 0 <= LastTouched(cs, h)
    requires 8 * |table| < TableRoom(cs, h) || ByteOf(b, LastTouched(cs, h)) == 0
    requires BlocksWritten(cs, b, table, counts, |table|) && Ascending(table, cs)
    requires forall k :: 0 <= k < |table| ==>
               table[k] + cs <= h.refcountTableOffset ||
               h.refcountTableOffset + TableRoom(cs, h) <= table[k]
    ensures var b' := HeaderPut(b, cs, h);
            && BlocksWritten(cs, b', table, counts, |table|) && h.refcountTableOffset + 8 * |table| <= |b'|
            && TableAt(b', h.refcountTableOffset, |table|, false) == TableAt(b, h.refcountTableOffset, |table|, false)
  {
    hide HeaderPut, DecodeBlock, DecodePointers, CountBlock;
    HeaderFrame(b, cs, h);
    var b', lo, x: nat := HeaderPut(b, cs, h), h.refcountTableOffset, LastTouched(cs, h);
    if 8 * |table| < TableRoom(cs, h) {
      TableEnd(h.refcountTableClusters, cs, |table|);
    }
    forall p | lo <= p < lo + 8 * |table|
      ensures b'[p] == b[p]
    {
      assert p == x ==> b[p] == 0;
    }
    assert b'[lo..lo + 8 * |table|] == b[lo..lo + 8 * |table|];
    forall m | 0 <= m < |table|
      ensures table[m] + cs <= |b'|
      ensures DecodeBlock(Counts, cs, Cluster(cs, b', table[m])) == CountBlock(counts, cs / 2, m)
    {
      assert lo <= x < lo + TableRoom(cs, h);
      assert Cluster(cs, b', table[m]) == Cluster(cs, b, table[m]);
    }
  }

  lemma TableEnd(clusters: nat, cs: nat, n: nat)
    requires 0 < cs && cs % 8 == 0 && 8 * n < clusters * cs
    ensures 8 * n <= clusters * cs - 8
  {
    MultipleAligned(cs, clusters);
    AlignedWeaken(clusters * cs, cs, 8);
  }

  // Why the blocks are apart from everything else.

  lemma {:induction false} TallyAdd(refs: seq<nat>, more: seq<nat>, cs: nat, i: nat)
    requires 0 < cs
    ensures Tally(refs + more, cs, i) == Tally(refs, cs, i) + Tally(more, cs, i)
  {
    if more == [] {
      assert refs + more == refs;
    } else {
      var n := |more| - 1;
      assert (refs + more)[..|refs| + n] == refs + more[..n];
      TallyAdd(refs, more[..n], cs, i);
    }
  }

  lemma {:induction false} TallyMember(refs: seq<nat>, cs: nat, k: nat)
    requires 0 < cs && k < |refs|
    ensures Tally(refs, cs, refs[k] / cs) >= 1
  {
    var n := |refs| - 1;
    if k < n {
      TallyMember(refs[..n], cs, k);
    }
  }

  lemma {:induction false} TallyNone(refs: seq<nat>, cs: nat, i: nat)
    requires 0 < cs && forall a :: a in refs ==> a / cs != i
    ensures Tally(refs, cs, i) == 0
  {
    if refs != [] {
      var n := |refs| - 1;
      assert refs[n] in refs && forall a :: a in refs[..n] ==> a in refs;
      TallyNone(refs[..n], cs, i);
    }
  }

  /** Blocks on distinct clusters add at most one reference to any cluster. */
  lemma {:induction false} TallyDistinct(table: seq<nat>, cs: nat, i: nat)
    requires 0 < cs && forall k :: 0 <= k < |table| ==> table[k] % cs == 0
    requires forall j, k :: 0 <= j < k < |table| ==> table[j] < table[k]
    ensures Tally(table, cs, i) <= 1
    ensures Tally(table, cs, i) == 1 ==> exists k :: 0 <= k < |table| && table[k] / cs == i
  {
    if table != [] {
      var n := |table| - 1;
      TallyDistinct(table[..n], cs, i);
      if table[n] / cs == i {
        forall a | a in table[..n]
          ensures a / cs != i
        {
          assert a < table[n] && a % cs == 0;
          assert a == cs * (a / cs) && table[n] == cs * (table[n] / cs);
        }
        TallyNone(table[..n], cs, i);
      }
    }
  }

  lemma {:induction false} RowMember(start: nat, cs: nat, n: nat, i: nat)
    requires i < n
    ensures |Row(start, cs, n)| == n && Row(start, cs, n)[i] == start + i * cs
  {
    if i < n - 1 {
      RowMember(start, cs, n - 1, i);
    } else if n > 1 {
      RowMember(start, cs, n - 1, 0);
    }
  }

  /** The header and the refcount table are referenced. */
  lemma ReservedReferenced(b: seq<byte>, cs: nat, h: Header, a: nat)
    requires 0 < cs && cs % 8 == 0 && h.l1TableOffset + 8 * h.l1Size <= |b| && h.refcountTableOffset % cs == 0
    requires a % cs == 0
    requires a == 0 || h.refcountTableOffset <= a < h.refcountTableOffset + TableRoom(cs, h)
    ensures Tally(References(b, cs, h), cs, a / cs) >= 1
  {
    var refs := References(b, cs, h);
    if a == 0 {
      assert refs[0] == 0;
      TallyMember(refs, cs, 0);
    } else {
      var row := Row(h.refcountTableOffset, cs, h.refcountTableClusters);
      var i := InRow(h.refcountTableOffset, cs, h.refcountTableClusters, a);
      RowMember(h.refcountTableOffset, cs, h.refcountTableClusters, i);
      var k := |refs| - |row| + i;
      assert refs[k] == row[i];
      TallyMember(refs, cs, k);
    }
  }

  lemma InRow(start: nat, cs: nat, n: nat, a: nat) returns (i: nat)
    requires 0 < cs && start % cs == 0 && a % cs == 0 && start <= a < start + n * cs
    ensures i < n && a == start + i * cs
  {
    var p, q := start / cs, a / cs;
    assert start == cs * p && a == cs * q;
    assert q < p ==> cs * (q + 1) <= cs * p;
    i := q - p;
    assert i * cs == cs * q - cs * p;
    assert n <= i ==> n * cs <= i * cs;
  }

  lemma BlocksApart(b: seq<byte>, cs: nat, h: Header, table: seq<nat>, n: nat)
    requires Rebuildable(b, cs, h) && h.l1TableOffset + 8 * h.l1Size <= |b|
    requires n <= MAX_RAM_POINTER_TABLE_SIZE && OnFreeClusters(table, References(b, cs, h), cs, n)
    ensures Ascending(table, cs) && BlocksWereFree(References(b, cs, h), cs, table)
    ensures forall k :: 0 <= k < |table| ==> IsPointer(table[k])
    ensures forall k :: 0 <= k < |table| ==>
              table[k] + cs <= h.refcountTableOffset ||
              h.refcountTableOffset + TableRoom(cs, h) <= table[k]
  {
    hide TableEntries, References, Rebuildable;
    RebuildableCluster(b, cs, h);
    var refs := References(b, cs, h);
    forall k | 0 <= k < |table|
      ensures cs <= table[k] && table[k] % cs == 0 && IsPointer(table[k])
      ensures Tally(refs, cs, table[k] / cs) == 0 && FreeBelow(refs, cs, table[k] / cs) == k
      ensures table[k] + cs <= h.refcountTableOffset ||
              h.refcountTableOffset + TableRoom(cs, h) <= table[k]
    {
      assert FreeNumber(refs, cs, n, table[k], k);
      FreeBlock(b, cs, h, table[k], n);
    }
    forall j, k | 0 <= j < k < |table|
      ensures table[j] < table[k]
    {
      assert FreeNumber(refs, cs, n, table[j], j) && FreeNumber(refs, cs, n, table[k], k);
      FreeOrder(refs, cs, n, table[j], j, table[k], k);
    }
  }

  lemma RebuildableCluster(b: seq<byte>, cs: nat, h: Header)
    requires Rebuildable(b, cs, h)
    ensures 512 <= cs && cs % 8 == 0 && 0 <= LastTouched(cs, h) && cs <= h.refcountTableOffset
    ensures h.refcountTableOffset % cs == 0 && 0 < h.refcountTableClusters
  {
    hide References, TableEntries;
    assert TableRoom(cs, h) >= 0;
  }

  lemma FreeBlock(b: seq<byte>, cs: nat, h: Header, a: nat, n: nat)
    requires Rebuildable(b, cs, h) && h.l1TableOffset + 8 * h.l1Size <= |b| && n <= MAX_RAM_POINTER_TABLE_SIZE
    requires a % cs == 0 && a / cs < n && IsFree(References(b, cs, h), cs, a / cs)
    ensures cs <= a && IsPointer(a) && Tally(References(b, cs, h), cs, a / cs) == 0
    ensures a + cs <= h.refcountTableOffset || h.refcountTableOffset + TableRoom(cs, h) <= a
  {
    hide TableEntries, References, IsPointer, Tally;
    assert Tally(References(b, cs, h), cs, a / cs) < COUNT_LIMIT;
    if a == 0 || h.refcountTableOffset <= a < h.refcountTableOffset + TableRoom(cs, h) {
      ReservedReferenced(b, cs, h, a);
    }
    if a < h.refcountTableOffset {
      AlignedApart(cs, a, h.refcountTableOffset);
    }
    AlignedApart(cs, 0, a);
    PointerInRange(a, cs, n);
  }

  lemma PointerInRange(a: nat, cs: nat, n: nat)
    requires 512 <= cs <= 0x20_0000 && cs % 512 == 0 && a % cs == 0 && a / cs < n <= MAX_RAM_POINTER_TABLE_SIZE
    ensures IsPointer(a)
  {
    AlignedWeaken(a, cs, 512);
    BelowLimit(cs, a / cs);
    AlignedProduct(a, cs);
  }

  lemma BelowLimit(cs: nat, i: nat)
    requires cs <= 0x20_0000 && i < MAX_RAM_POINTER_TABLE_SIZE
    ensures cs * i < ADDRESS_LIMIT
  {
    MulMonotone(cs, 0x20_0000, i);
  }

  lemma AlignedProduct(a: nat, cs: nat)
    requires 0 < cs && a % cs == 0
    ensures a == cs * (a / cs)
  {
  }

  /** The count on disk is the number of references. */
  lemma StoredIsTally(b: seq<byte>, cs: nat, refs: seq<nat>, table: seq<nat>, counts: seq<nat>, i: nat)
    requires 2 <= cs && cs % 8 == 0 && BlocksWritten(cs, b, table, counts, |table|) && i < |table| * (cs / 2)
    requires Counted(counts, refs + table, cs) && BlocksWereFree(refs, cs, table) && Ascending(table, cs)
    requires Tally(refs, cs, i) < COUNT_LIMIT
    ensures StoredCount(cs, b, table, i) == Tally(refs + table, cs, i)
  {
    hide StoredCount, BlocksWritten;
    StoredAt(b, cs, table, counts, i);
    TallyAdd(refs, table, cs, i);
    TallyDistinct(table, cs, i);
    if i >= |counts| {
      TallyNone(refs + table, cs, i);
    }
  }

  lemma CountBlockAt(counts: seq<nat>, n: nat, i: nat)
    requires 0 < n
    ensures i % n < |CountBlock(counts, n, i / n)| == n
    ensures CountBlock(counts, n, i / n)[i % n] == if i < |counts| then counts[i] else 0
  {
    assert i == i / n * n + i % n;
  }

  lemma BlockStored(b: seq<byte>, cs: nat, table: seq<nat>, counts: seq<nat>, t: nat)
    requires cs % 8 == 0 && BlocksWritten(cs, b, table, counts, |table|) && t < |table| && 0 < table[t]
    ensures Block(cs, b, Level(Counts, table, map[]), t) == CountBlock(counts, cs / 2, t)
  {
    hide DecodeBlock, Cluster, CountBlock;
  }

  lemma EntryIn(cs: nat, b: seq<byte>, lv: Level, i: nat)
    requires 2 <= cs && lv.kind.Counts? && lv.cache == map[]
    ensures var t: nat, j: nat := i / (cs / 2), i % (cs / 2);
            j < |Block(cs, b, lv, t)| ==> StoredCount(cs, b, lv.top, i) == Block(cs, b, lv, t)[j]
  {
    hide Block;
  }

  lemma StoredAt(b: seq<byte>, cs: nat, table: seq<nat>, counts: seq<nat>, i: nat)
    requires 2 <= cs && cs % 8 == 0 && BlocksWritten(cs, b, table, counts, |table|) && i < |table| * (cs / 2)
    requires forall k :: 0 <= k < |table| ==> 0 < table[k]
    ensures StoredCount(cs, b, table, i) == if i < |counts| then counts[i] else 0
  {
    hide *;
    DivBelow(i, |table|, cs / 2);
    CountBlockAt(counts, cs / 2, i);
    BlockStored(b, cs, table, counts, i / (cs / 2));
    EntryIn(cs, b, Level(Counts, table, map[]), i);
  }

  // Putting it together.

  /** Clusters of data, L2 tables, L1 table (again counted by entries) and header. */
  function MaxClusters(cs: nat, size: nat): nat
    requires 8 <= cs
  {
    var l2 := CeilDiv(CeilDiv(size, cs), cs / 8);
    CeilDiv(size, cs) + l2 + CeilDiv(l2, cs) + CeilDiv(104, cs)
  }

  function RefblockClusters(cs: nat, size: nat): nat
    requires 8 <= cs
  {
    CeilDiv(MaxClusters(cs, size), cs / 2)
  }

  /** The number of entries of the rebuilt table: one for every cluster a full table would fill. */
  function TableEntries(cs: nat, size: nat): nat
    requires 8 <= cs
  {
    CeilDiv(RefblockClusters(cs, size), cs / 8)
  }

  function MaxValidClusterIndex(cs: nat, size: nat): nat
    requires 8 <= cs
  {
    var blocks, tables := RefblockClusters(cs, size), TableEntries(cs, size);
    var more := CeilDiv(blocks + tables, cs / 2);
    MaxClusters(cs, size) + blocks + tables + more + CeilDiv(more, cs / 2)
  }

  /** `a - b` in 64-bit arithmetic. */
  function WrapSub(a: nat, b: nat): nat {
    (a - b) % 0x1_0000_0000_0000_0000
  }

  /**
   * Where rebuilding is safe: the table of the header is behind the header and has room for the rebuilt
   * one, and no count overflows. A table that is full to the last entry must not have that entry clipped
   * by the header (see `ClippedPointer`).
   */
  ghost predicate Rebuildable(b: seq<byte>, cs: nat, h: Header) {
    && 512 <= cs <= 0x20_0000 && cs % 512 == 0 && cs % 8 == 0
    && cs <= h.refcountTableOffset && h.refcountTableOffset % cs == 0 && 0 < h.refcountTableClusters
    && 8 * TableEntries(cs, h.size) <= TableRoom(cs, h)
    && (8 * TableEntries(cs, h.size) < TableRoom(cs, h) || cs % 0x1_0000 == 0)
    && (h.l1TableOffset + 8 * h.l1Size <= |b| ==> forall i: nat :: Tally(References(b, cs, h), cs, i) < COUNT_LIMIT)
  }

  /** What the rebuild asks of the image; otherwise it gives up before it writes anything. */
  ghost predicate RebuildPossible(b: seq<byte>, cs: nat, h: Header)
    requires 8 <= cs && cs % 8 == 0
  {
    var n := MaxValidClusterIndex(cs, h.size);
    && n <= MAX_RAM_POINTER_TABLE_SIZE && WrapSub(|b|, cs) <= n * cs
    && MapReadable(b, cs, h) && AllBelow(References(b, cs, h), cs, n)
    && TableEntries(cs, h.size) <= FreeBelow(References(b, cs, h), cs, n)
  }

  /** The count the file holds for cluster number `i`. */
  function StoredCount(cs: nat, b: seq<byte>, table: seq<nat>, i: nat): nat
    requires 2 <= cs
  {
    Entry(cs, b, Level(Counts, table, map[]), i / (cs / 2), i % (cs / 2))
  }

  /**
   * Rebuilds the counts, which works exactly for the images that are fit for it. Afterwards the file
   * holds, for every cluster the rebuilt table covers, the number of references to it, the new blocks
   * included; these lie on the first clusters nothing referred to, and apart from them, the table itself
   * and the header the file is as before.
   */
  method RebuildRefcounts(raw: QcowRawFile, h: Header) returns (e: Option<RebuildError>, table: seq<nat>)
    requires Unprotected(raw) && Rebuildable(raw.bytes, raw.clusterSize, h)
    modifies raw
    ensures e.None? <==> RebuildPossible(old(raw.bytes), raw.clusterSize, h)
    ensures e.Some? ==> raw.bytes == old(raw.bytes)
    ensures e.None? ==> Unprotected(raw) && Rebuilt(old(raw.bytes), raw.clusterSize, h, raw.bytes, table)
  {
    hide JournalOk, References, TableEntries, MaxValidClusterIndex, Counted, Rebuilt, FreeBelow, Rebuildable, AllBelow;
    var cs := raw.clusterSize;
    RebuildableCluster(raw.bytes, cs, h);
    var n := MaxValidClusterIndex(cs, h.size);
    if n > MAX_RAM_POINTER_TABLE_SIZE {
      return Some(InvalidRefcountTableSize), [];
    }
    if n * cs < WrapSub(|raw.bytes|, cs) {
      return Some(InvalidRefcountTableSize), [];
    }
    var counts := new nat[n](_ => 0);
    e := CountReferences(raw, counts, h);
    if e.Some? {
      return e, [];
    }
    ghost var refs := References(raw.bytes, cs, h);
    e, table := AllocRefblocks(counts, cs, TableEntries(cs, h.size), refs);
    if e.Some? {
      return e, [];
    }
    CountsFit16(counts[..], refs + table, cs);
    BlocksApart(raw.bytes, cs, h, table, n);
    WriteRefblocks(raw, h, counts[..], table);
    return None, table;
  }

  lemma CountsFit16(counts: seq<nat>, refs: seq<nat>, cs: nat)
    requires 0 < cs && Counted(counts, refs, cs)
    ensures forall i :: 0 <= i < |counts| ==> counts[i] < COUNT_LIMIT
  {
  }

  /** Header, blocks, table, and the header again. */
  method WriteRefblocks(raw: QcowRawFile, h: Header, counts: seq<nat>, table: seq<nat>)
    requires Unprotected(raw) && Rebuildable(raw.bytes, raw.clusterSize, h)
    requires MapReadable(raw.bytes, raw.clusterSize, h)
    requires |table| == TableEntries(raw.clusterSize, h.size) && Ascending(table, raw.clusterSize)
    requires BlocksWereFree(References(raw.bytes, raw.clusterSize, h), raw.clusterSize, table)
    requires forall k :: 0 <= k < |table| ==> IsPointer(table[k])
    requires forall k :: 0 <= k < |table| ==>
               table[k] + raw.clusterSize <= h.refcountTableOffset ||
               h.refcountTableOffset + TableRoom(raw.clusterSize, h) <= table[k]
    requires Counted(counts, References(raw.bytes, raw.clusterSize, h) + table, raw.clusterSize)
    requires forall i :: 0 <= i < |counts| ==> counts[i] < COUNT_LIMIT
    modifies raw
    ensures Unprotected(raw) && Rebuilt(old(raw.bytes), raw.clusterSize, h, raw.bytes, table)
  {
    hide JournalOk, References, TableEntries, Counted, Rebuilt, Rebuildable, HeaderPut, Put, BlocksWritten, OnlyBlocks,
         MapReadable, BlocksWereFree, Tally, TableAt, EncodePointers, IsPointer;
    var cs := raw.clusterSize;
    ghost var b := raw.bytes;
    RebuildableCluster(b, cs, h);
    RebuildableTable(b, cs, h, table);
    WriteHeader(raw, Lazy(h));
    ghost var b1 := raw.bytes;
    WriteBlocks(raw, counts, table);
    ghost var b2 := raw.bytes;
    WriteTable(raw, h.refcountTableOffset, table, counts);
    ghost var b3 := raw.bytes;
    WriteHeader(raw, NotLazy(h));
    WrittenIsRebuilt(b, cs, h, counts, table, b1, b2, b3, raw.bytes);
  }

  lemma RebuildableTable(b: seq<byte>, cs: nat, h: Header, table: seq<nat>)
    requires Rebuildable(b, cs, h) && |table| == TableEntries(cs, h.size)
    ensures 8 * |table| <= TableRoom(cs, h)
    ensures 8 * |table| < TableRoom(cs, h) || cs % 0x1_0000 == 0
    ensures h.l1TableOffset + 8 * h.l1Size <= |b| ==> forall i: nat :: Tally(References(b, cs, h), cs, i) < COUNT_LIMIT
  {
    hide References, TableEntries;
  }

  lemma WrittenIsRebuilt(b: seq<byte>, cs: nat, h: Header, counts: seq<nat>, table: seq<nat>,
                         b1: seq<byte>, b2: seq<byte>, b3: seq<byte>, b4: seq<byte>)
    requires Rebuildable(b, cs, h) && MapReadable(b, cs, h) && 0 <= LastTouched(cs, h)
    requires |table| == TableEntries(cs, h.size) && Ascending(table, cs)
    requires BlocksWereFree(References(b, cs, h), cs, table)
    requires forall k :: 0 <= k < |table| ==>
               table[k] + cs <= h.refcountTableOffset ||
               h.refcountTableOffset + TableRoom(cs, h) <= table[k]
    requires Counted(counts, References(b, cs, h) + table, cs)
    requires b1 == HeaderPut(b, cs, Lazy(h)) && OnlyBlocks(cs, b1, b2, table)
    requires b3 == Put(b2, h.refcountTableOffset, EncodePointers(table, false))
    requires BlocksWritten(cs, b3, table, counts, |table|)
    requires TableAt(b3, h.refcountTableOffset, |table|, false) == table
    requires b4 == HeaderPut(b3, cs, NotLazy(h))
    ensures Rebuilt(b, cs, h, b4, table)
  {
    hide References, TableEntries, Counted, Rebuildable, HeaderPut, Put, BlocksWritten, MapReadable, BlocksWereFree,
         Tally, TableAt, EncodePointers, Ascending, OnlyBlocks;
    RebuildableCluster(b, cs, h);
    RebuildableTable(b, cs, h, table);
    assert TableRoom(cs, h) >= cs;
    ClearedByte(b2, cs, h.refcountTableOffset, TableRoom(cs, h), table);
    HeaderKeeps(b3, cs, NotLazy(h), table, counts);
    RebuiltCounts(b, cs, h, counts, table, b4);
    RebuiltFrame(b, cs, h, table, b1, b2, b3, b4);
    BlocksInFile(cs, b4, table, counts);
    ReadableL1(b, cs, h);
  }

  lemma BlocksInFile(cs: nat, b: seq<byte>, table: seq<nat>, counts: seq<nat>)
    requires cs % 8 == 0 && BlocksWritten(cs, b, table, counts, |table|)
    ensures forall k :: 0 <= k < |table| ==> table[k] + cs <= |b|
  {
  }

  lemma RebuiltCounts(b: seq<byte>, cs: nat, h: Header, counts: seq<nat>, table: seq<nat>, b': seq<byte>)
    requires Rebuildable(b, cs, h) && MapReadable(b, cs, h)
    requires |table| == TableEntries(cs, h.size) && Ascending(table, cs)
    requires BlocksWereFree(References(b, cs, h), cs, table) && BlocksWritten(cs, b', table, counts, |table|)
    requires Counted(counts, References(b, cs, h) + table, cs)
    ensures CountsRestored(References(b, cs, h), cs, b', table)
  {
    hide *;
    RebuildableCluster(b, cs, h);
    RebuildableTable(b, cs, h, table);
    ReadableL1(b, cs, h);
    var refs := References(b, cs, h);
    forall i: nat | i < |table| * (cs / 2)
      ensures StoredCount(cs, b', table, i) == Tally(refs + table, cs, i)
    {
      StoredIsTally(b', cs, refs, table, counts, i);
    }
    RestoredAll(refs, cs, b', table);
  }

  lemma RestoredAll(refs: seq<nat>, cs: nat, b: seq<byte>, table: seq<nat>)
    requires 2 <= cs
    requires forall i: nat :: i < |table| * (cs / 2) ==> StoredCount(cs, b, table, i) == Tally(refs + table, cs, i)
    ensures CountsRestored(refs, cs, b, table)
  {
  }

  /** The byte the header clears is zero already where the table reaches it. */
  lemma ClearedByte(b: seq<byte>, cs: nat, lo: nat, room: nat, table: seq<nat>)
    requires 512 <= cs <= room && Ascending(table, cs) && 8 * |table| <= room
    requires 8 * |table| < room || cs % 0x1_0000 == 0
    ensures 8 * |table| < room || ByteOf(Put(b, lo, EncodePointers(table, false)), lo + room - 2) == 0
  {
    hide *;
    if 8 * |table| == room {
      ClearedIn(b, cs, lo, table);
    }
  }

  lemma ClearedIn(b: seq<byte>, cs: nat, lo: nat, table: seq<nat>)
    requires 512 <= cs && cs % 0x1_0000 == 0 && Ascending(table, cs) && table != []
    ensures ByteOf(Put(b, lo, EncodePointers(table, false)), lo + 8 * |table| - 2) == 0
  {
    hide Put, EncodePointers;
    var d, n := EncodePointers(table, false), |table| - 1;
    PutFrame(b, lo, d);
    var b' := Put(b, lo, d);
    assert b'[lo..lo + |d|][8 * n + 6] == b'[lo + 8 * n + 6];
    PointerByte(table);
    AlignedWeaken(table[n], cs, 0x1_0000);
    SecondByteZero(table[n]);
  }

  lemma SecondByteZero(v: nat)
    requires v % 0x1_0000 == 0
    ensures v / 256 % 256 == 0
  {
    var q := v / 0x1_0000;
    DivModUnique(v, 256, 256 * q, 0);
    DivModUnique(256 * q, 256, q, 0);
  }

  /** Bits 8 to 15 of the last pointer of a table. */
  lemma {:induction false} PointerByte(t: seq<nat>)
    requires t != []
    ensures EncodePointers(t, false)[8 * (|t| - 1) + 6] == t[|t| - 1] / 256 % 256
  {
    if |t| == 1 {
      assert t == [t[0]] && t[1..] == [];
      SecondLast(t[0]);
    } else {
      PointerByte(t[1..]);
    }
  }

  lemma SecondLast(v: nat)
    ensures ToBigEndian(v, 8)[6] == v / 256 % 256
  {
    assert ToBigEndian(v, 8) == ToBigEndian(v / 256, 7) + [v % 256];
    assert ToBigEndian(v / 256, 7) == ToBigEndian(v / 256 / 256, 6) + [v / 256 % 256];
  }

  /**
   * A table that fills its clusters: writing the header behind it clears bits 8 to 15 of the last pointer,
   * so that the pointer survives exactly if they are zero. Clusters of 64 KiB and more make sure of that.
   */
  lemma ClippedPointer(b: seq<byte>, cs: nat, h: Header, t: seq<nat>)
    requires 512 <= cs && V3_BARE_HEADER_SIZE <= h.refcountTableOffset && 0 < h.refcountTableClusters
    requires 8 * |t| == TableRoom(cs, h) && 0 <= LastTouched(cs, h)
    ensures var b3 := Put(b, h.refcountTableOffset, EncodePointers(t, false));
            var b4 := HeaderPut(b3, cs, h);
            && h.refcountTableOffset + 8 * |t| <= |b4|
            && (b4[h.refcountTableOffset..h.refcountTableOffset + 8 * |t|] == EncodePointers(t, false) <==>
                t[|t| - 1] / 256 % 256 == 0)
  {
    hide Put, EncodePointers, HeaderPut;
    MulMonotone(1, h.refcountTableClusters, cs);
    var d, lo, x: nat := EncodePointers(t, false), h.refcountTableOffset, 8 * (|t| - 1) + 6;
    var b3 := Put(b, lo, d);
    PutFrame(b, lo, d);
    HeaderFrame(b3, cs, h);
    PointerByte(t);
    OneByteCleared(b3, HeaderPut(b3, cs, h), lo, d, x);
  }

  lemma OneByteCleared(b: seq<byte>, b': seq<byte>, lo: nat, d: seq<byte>, x: nat)
    requires lo + |d| <= |b| <= |b'| && b[lo..lo + |d|] == d && x < |d| && b'[lo + x] == 0
    requires forall p :: lo <= p < lo + |d| && p != lo + x ==> b'[p] == ByteOf(b, p)
    ensures b'[lo..lo + |d|] == d <==> d[x] == 0
  {
    assert forall p :: lo <= p < lo + |d| ==> b[p] == b[lo..lo + |d|][p - lo];
    assert b'[lo..lo + |d|][x] == b'[lo + x];
  }

  /** What changed, step by step. */
  lemma RebuiltFrame(b: seq<byte>, cs: nat, h: Header, table: seq<nat>, b1: seq<byte>, b2: seq<byte>, b3: seq<byte>,
                     b4: seq<byte>)
    requires 0 <= LastTouched(cs, h) && V3_BARE_HEADER_SIZE <= LastTouched(cs, h)
    requires 8 * |table| <= TableRoom(cs, h)
    requires b1 == HeaderPut(b, cs, Lazy(h)) && OnlyBlocks(cs, b1, b2, table)
    requires b3 == Put(b2, h.refcountTableOffset, EncodePointers(table, false))
    requires b4 == HeaderPut(b3, cs, NotLazy(h))
    ensures Elsewhere(b, cs, h, b4, table) && GrownTo(b, cs, h, b4, table)
  {
    hide HeaderPut, Put, EncodePointers, Outside;
    HeaderFrame(b, cs, Lazy(h));
    PutFrame(b2, h.refcountTableOffset, EncodePointers(table, false));
    HeaderFrame(b3, cs, NotLazy(h));
    assert LastTouched(cs, Lazy(h)) == LastTouched(cs, NotLazy(h)) == LastTouched(cs, h);
  }

  /** The blocks lie on the first clusters without references, in order. */
  ghost predicate BlocksWereFree(refs: seq<nat>, cs: nat, table: seq<nat>)
    requires 0 < cs
  {
    && (forall k :: 0 <= k < |table| ==>
          && table[k] % cs == 0 && Tally(refs, cs, table[k] / cs) == 0
          && FreeBelow(refs, cs, table[k] / cs) == k)
    && (forall j, k :: 0 <= j < k < |table| ==> table[j] < table[k])
  }

  /** For every cluster the table covers the file holds the number of references. */
  ghost predicate CountsRestored(refs: seq<nat>, cs: nat, b: seq<byte>, table: seq<nat>)
    requires 2 <= cs
  {
    forall i: nat :: i < |table| * (cs / 2) ==> StoredCount(cs, b, table, i) == Tally(refs + table, cs, i)
  }

  /** Apart from header, table, blocks and the byte the header clears, the file reads as before. */
  ghost predicate Elsewhere(b: seq<byte>, cs: nat, h: Header, b': seq<byte>, table: seq<nat>) {
    && ByteOf(b', if LastTouched(cs, h) < 0 then 0 else LastTouched(cs, h)) == 0
    && (forall p :: && V3_BARE_HEADER_SIZE <= p < |b'| && p != LastTouched(cs, h)
                    && Outside(cs, table, p) && OutsideRange(h.refcountTableOffset, 8 * |table|, p)
                    ==> b'[p] == ByteOf(b, p))
  }

  /** The file ends where it did, at the end of the table (perhaps a byte short), or behind a block. */
  ghost predicate GrownTo(b: seq<byte>, cs: nat, h: Header, b': seq<byte>, table: seq<nat>) {
    && |b| <= |b'| && LastTouched(cs, h) < |b'|
    && (|b'| == |b| || |b'| == LastTouched(cs, h) + 1 || |b'| == LastTouched(cs, h) + 2
        || exists k :: 0 <= k < |table| && |b'| == table[k] + cs)
  }

  ghost predicate Rebuilt(b: seq<byte>, cs: nat, h: Header, b': seq<byte>, table: seq<nat>)
    requires 512 <= cs && cs % 8 == 0
  {
    && MapReadable(b, cs, h) && |table| == TableEntries(cs, h.size)
    && h.refcountTableOffset + 8 * |table| <= |b'| && TableAt(b', h.refcountTableOffset, |table|, false) == table
    && BlocksWereFree(References(b, cs, h), cs, table)
    && (forall k :: 0 <= k < |table| ==> table[k] + cs <= |b'|)
    && CountsRestored(References(b, cs, h), cs, b', table)
    && Elsewhere(b, cs, h, b', table) && GrownTo(b, cs, h, b', table)
  }

  /** The counts of the first `n` clusters, added up. */
  function TallySum(refs: seq<nat>, cs: nat, n: nat): nat
    requires 0 < cs
  {
    if n == 0 then 0 else TallySum(refs, cs, n - 1) + Tally(refs, cs, n - 1)
  }

  /** Nothing is counted twice and nothing is missed: the counts add up to the number of references. */
  lemma {:induction false} CountsAddUp(refs: seq<nat>, cs: nat, n: nat)
    requires 0 < cs && forall k :: 0 <= k < |refs| ==> refs[k] / cs < n
    ensures TallySum(refs, cs, n) == |refs|
  {
    if refs == [] {
      SumOfNone(cs, n);
    } else {
      var last := |refs| - 1;
      CountsAddUp(refs[..last], cs, n);
      SumOneMore(refs, cs, n);
    }
  }

  lemma {:induction false} SumOfNone(cs: nat, n: nat)
    requires 0 < cs
    ensures TallySum([], cs, n) == 0
  {
    if n > 0 {
      SumOfNone(cs, n - 1);
    }
  }

  lemma {:induction false} SumOneMore(refs: seq<nat>, cs: nat, n: nat)
    requires 0 < cs && refs != []
    ensures TallySum(refs, cs, n) ==
            TallySum(refs[..|refs| - 1], cs, n) + if refs[|refs| - 1] / cs < n then 1 else 0
  {
    if n > 0 {
      SumOneMore(refs, cs, n - 1);
    }
  }

  /**
   * The rebuilt table has as many entries as a full table has clusters. With clusters of 64 KiB that
   * is one or two, which reaches every cluster of the image exactly up to 32758 data clusters.
   */
  lemma RebuildCovers(size: nat)
    requires size <= MAX_QCOW_FILE_SIZE
    ensures 1 <= TableEntries(CLUSTER_SIZE, size) <= 2
    ensures MaxValidClusterIndex(CLUSTER_SIZE, size) <= TableEntries(CLUSTER_SIZE, size) * (CLUSTER_SIZE / 2) <==>
            size <= 32758 * CLUSTER_SIZE
  {
    hide CeilDiv;
    ClustersFromSize(size);
    SizesFromClusters(MaxClusters(CLUSTER_SIZE, size));
  }

  lemma ClustersFromSize(size: nat)
    requires size <= MAX_QCOW_FILE_SIZE
    ensures 1 <= MaxClusters(CLUSTER_SIZE, size) <= 0x1000_8002
    ensures MaxClusters(CLUSTER_SIZE, size) <= 32764 <==> size <= 32758 * CLUSTER_SIZE
  {
    var data := CeilDiv(size, CLUSTER_SIZE);
    assert data <= 0x1000_0000;
    var l2 := CeilDiv(data, 8192);
    assert l2 <= 0x8000;
  }

  lemma SizesFromClusters(m: nat)
    requires 1 <= m <= 0x1000_8002
    ensures var blocks := CeilDiv(m, 32768);
            var entries := CeilDiv(blocks, 8192);
            var more := CeilDiv(blocks + entries, 32768);
            && 1 <= entries <= 2
            && (m + blocks + entries + more + CeilDiv(more, 32768) <= entries * 32768 <==> m <= 32764)
  {
    var blocks := CeilDiv(m, 32768);
    assert 1 <= blocks <= 8194;
  }
}
