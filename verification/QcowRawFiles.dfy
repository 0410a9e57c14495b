/** The host file under a qcow2 image: cluster-sized reads and writes, and growing at the end. */
module QcowRawFiles {
  import opened HostBytes
  import opened PointerTables
  import opened Wrappers
  import opened CachedTables
  import opened Journals

  datatype IoError = EINVAL | ENOSPC | ENOTSUP | UnexpectedEof

  type IoResult<+T> = Result<T, IoError>

  class QcowRawFile {
    const clusterSize: nat
    var bytes: seq<byte>
    ghost var journal: Journal

    ghost predicate Valid()
      reads this
    {
      0 < clusterSize && clusterSize % 8 == 0 && JournalOk(clusterSize, bytes, journal)
    }

    ghost predicate Writable(off: nat, n: nat)
      reads this
    {
      Unprotected(off, n) && Beside(clusterSize, journal.slots, off, n)
    }

    ghost predicate Unprotected(off: nat, n: nat)
      reads this
    {
      Clear(clusterSize, journal.mapBook.commit, off, n) && Clear(clusterSize, journal.refBook.commit, off, n)
    }

    constructor (clusterSize: nat, bytes: seq<byte>, ghost journal: Journal)
      requires 0 < clusterSize && clusterSize % 8 == 0 && JournalOk(clusterSize, bytes, journal)
      ensures Valid() && this.clusterSize == clusterSize && this.bytes == bytes && this.journal == journal
    {
      this.clusterSize := clusterSize;
      this.bytes := bytes;
      this.journal := journal;
    }

    method WriteAt(off: nat, d: seq<byte>)
      requires Valid() && off + |d| <= |bytes| && Writable(off, |d|)
      modifies this
      ensures Valid() && Continued(old(journal), journal)
      ensures bytes == Splice(old(bytes), off, d)
    {
      hide JournalOk, Clear, Beside, Explained, Splice;
      SpliceBeside(clusterSize, journal.slots, bytes, off, d);
      SpliceOk(clusterSize, bytes, journal, off, d, None);
      bytes := Splice(bytes, off, d);
      journal := Append(journal, bytes, None);
    }

    /** A write of guest data to the data cluster at `a`. */
    method WriteData(off: nat, d: seq<byte>, ghost a: nat, ghost t: Touch)
      requires Valid() && off + |d| <= |bytes| && Unprotected(off, |d|)
      requires 0 < a && off == a + t.at && d == t.data && Hosts(clusterSize, journal.slots, a, t)
      modifies this
      ensures Valid() && SamePages(old(journal), journal)
      ensures journal.guest == old(journal).guest[|old(journal).images| := t]
      ensures bytes == Splice(old(bytes), off, d)
    {
      hide JournalOk, Clear, Explained, Splice;
      SpliceHosted(clusterSize, journal.slots, bytes, a, t);
      SpliceOk(clusterSize, bytes, journal, off, d, Some(t));
      bytes := Splice(bytes, off, d);
      journal := Append(journal, bytes, Some(t));
    }

    method SetLen(n: nat)
      requires Valid() && |bytes| <= n
      modifies this
      ensures Valid() && Continued(old(journal), journal)
      ensures bytes == old(bytes) + Zeros(n - |old(bytes)|)
    {
      hide JournalOk;
      GrowOk(clusterSize, bytes, journal, Zeros(n - |bytes|));
      bytes := bytes + Zeros(n - |bytes|);
      journal := Append(journal, bytes, None);
    }

    /** Reads `count` pointers at `offset`, with the reserved bits masked out on request. */
    method ReadPointerTable(offset: nat, count: nat, mask: bool) returns (r: IoResult<seq<nat>>)
      ensures r.Ok? <==> offset + 8 * count <= |bytes|
      ensures r.Err? ==> r.error == UnexpectedEof
      ensures r.Ok? ==> r.value == DecodePointers(bytes[offset..offset + 8 * count], count, mask)
    {
      if offset + 8 * count > |bytes| {
        return Err(UnexpectedEof);
      }
      hide *;
      var table: seq<nat> := [];
      ghost var all := bytes[offset..offset + 8 * count];
      ghost var wanted := DecodePointers(all, count, mask);
      for i := 0 to count
        invariant |table| == i && table == wanted[..i]
      {
        PointerAt(all, count, i, mask);
        SliceOf(bytes, offset, 8 * count, 8 * i, 8);
        var w := FromBigEndian(bytes[offset + 8 * i..offset + 8 * i + 8]);
        table := table + [if mask then MaskPointer(w) else w];
      }
      return Ok(table);
    }

    /** Writes `table` at `offset`; non-zero entries get the flag when `flag` is set. */
    method WritePointerTable(offset: nat, table: seq<nat>, flag: bool)
      requires Valid() && offset + 8 * |table| <= |bytes| && Writable(offset, 8 * |table|)
      modifies this
      ensures Valid() && Continued(old(journal), journal)
      ensures bytes == Splice(old(bytes), offset, EncodePointers(table, flag))
    {
      var buffer := PointerBuffer(table, flag);
      WriteAt(offset, buffer);
    }

    /** The write that commits the L1 table. */
    method CommitL1(offset: nat, table: seq<nat>, ghost slots: map<nat, (nat, nat)>)
      requires Valid() && offset == journal.mapBook.commit.lo && |table| == journal.mapBook.commit.count
      requires forall k :: 0 <= k < |table| ==> IsPointer(table[k])
      requires Clear(clusterSize, journal.refBook.commit, offset, 8 * |table|)
      requires forall a :: a in Referenced(table) ==> a + clusterSize <= |bytes|
      requires offset + 8 * |table| <= |bytes| && (forall d :: d in slots ==> d + clusterSize <= |bytes|)
      requires SlotsFound(clusterSize, offset, |table|, journal.mapBook.mask,
                          Splice(bytes, offset, EncodePointers(table, false)), slots)
      modifies this
      ensures Valid() && journal == MapCommitted(old(journal), bytes, table, slots)
      ensures bytes == Splice(old(bytes), offset, EncodePointers(table, false))
    {
      hide JournalOk, Clear, IsPointer, Referenced, SlotsFound, Splice;
      MapCommitOk(clusterSize, bytes, journal, table, slots);
      var buffer := PointerBuffer(table, false);
      bytes := Splice(bytes, offset, buffer);
      journal := MapCommitted(journal, bytes, table, slots);
    }

    /** The write that commits the refcount table. */
    method CommitRefTable(offset: nat, table: seq<nat>)
      requires Valid() && offset == journal.refBook.commit.lo && |table| == journal.refBook.commit.count
      requires forall k :: 0 <= k < |table| ==> IsPointer(table[k])
      requires Clear(clusterSize, journal.mapBook.commit, offset, 8 * |table|)
      requires Beside(clusterSize, journal.slots, offset, 8 * |table|) && offset + 8 * |table| <= |bytes|
      requires forall a :: a in Referenced(table) ==> a + clusterSize <= |bytes|
      modifies this
      ensures Valid() && journal == RefCommitted(old(journal), bytes, table)
      ensures bytes == Splice(old(bytes), offset, EncodePointers(table, false))
    {
      hide JournalOk, Clear, IsPointer, Referenced, Beside, Splice;
      RefCommitOk(clusterSize, bytes, journal, table);
      var buffer := PointerBuffer(table, false);
      bytes := Splice(bytes, offset, buffer);
      journal := RefCommitted(journal, bytes, table);
    }

    /** Reads `n` bytes at `off`. */
    method ReadAt(off: nat, n: nat) returns (r: IoResult<seq<byte>>)
      ensures r.Ok? <==> off + n <= |bytes|
      ensures r.Ok? ==> r.value == bytes[off..off + n]
    {
      if off + n > |bytes| {
        return Err(UnexpectedEof);
      }
      return Ok(bytes[off..off + n]);
    }

    method ReadRefcountBlock(offset: nat) returns (r: IoResult<seq<nat>>)
      requires clusterSize % 8 == 0
      ensures r.Ok? <==> offset + clusterSize <= |bytes|
      ensures r.Ok? ==> r.value == DecodeBlock(Counts, clusterSize, Cluster(clusterSize, bytes, offset))
    {
      if offset + clusterSize > |bytes| {
        return Err(UnexpectedEof);
      }
      hide DecodeCounts, Cluster, FromBigEndian;
      var count := clusterSize / 2;
      var table: seq<nat> := [];
      ghost var all := Cluster(clusterSize, bytes, offset);
      for i := 0 to count
        invariant |table| == i
        invariant table + DecodeCounts(all[2 * i..], count - i) == DecodeCounts(all, count)
      {
        NextCount(bytes, offset, clusterSize, i);
        table := table + [FromBigEndian(bytes[offset + 2 * i..offset + 2 * i + 2])];
      }
      NoCounts(all[2 * count..]);
      return Ok(table);
    }

    method WriteRefcountBlock(offset: nat, table: seq<nat>)
      requires Valid() && offset + 2 * |table| <= |bytes| && Writable(offset, 2 * |table|)
      modifies this
      ensures Valid() && Continued(old(journal), journal)
      ensures bytes == Splice(old(bytes), offset, EncodeCounts(table))
    {
      var buffer: seq<byte> := [];
      for i := 0 to |table|
        invariant buffer + EncodeCounts(table[i..]) == EncodeCounts(table)
        invariant |buffer| == 2 * i
      {
        assert table[i..][0] == table[i] && table[i..][1..] == table[i + 1..];
        buffer := buffer + ToBigEndian(table[i], 2);
      }
      assert buffer == EncodeCounts(table);
      WriteAt(offset, buffer);
    }

    /** Appends a zeroed cluster, unless its address would exceed `maxValidClusterOffset`. */
    method AddClusterEnd(maxValidClusterOffset: nat) returns (r: Option<nat>)
      requires Valid()
      modifies this
      ensures Valid() && Continued(old(journal), journal)
      ensures var x := (|old(bytes)| + clusterSize - 1) / clusterSize * clusterSize;
              if x > maxValidClusterOffset
              then r == None && bytes == old(bytes) && journal == old(journal)
              else r == Some(x) && x >= |old(bytes)|
                   && bytes == old(bytes) + Zeros(x + clusterSize - |old(bytes)|)
    {
      var fileEnd := |bytes|;
      var newClusterAddress := (fileEnd + clusterSize - 1) / clusterSize * clusterSize;
      RoundUp(fileEnd, clusterSize);
      if newClusterAddress > maxValidClusterOffset {
        return None;
      }
      SetLen(newClusterAddress + clusterSize);
      return Some(newClusterAddress);
    }

    method ZeroCluster(address: nat)
      requires Valid() && address + clusterSize <= |bytes| && Writable(address, clusterSize)
      modifies this
      ensures Valid() && Continued(old(journal), journal)
      ensures bytes == Splice(old(bytes), address, Zeros(clusterSize))
    {
      WriteAt(address, Zeros(clusterSize));
    }
  }

  lemma SliceOf(b: seq<byte>, offset: nat, n: nat, i: nat, k: nat)
    requires offset + n <= |b| && i + k <= n
    ensures b[offset..offset + n][i..][..k] == b[offset + i..offset + i + k]
  {
  }

  lemma {:induction false} PointerAt(b: seq<byte>, n: nat, i: nat, mask: bool)
    requires 8 * n <= |b| && i < n
    ensures var w := FromBigEndian(b[8 * i..][..8]);
            DecodePointers(b, n, mask)[i] == if mask then MaskPointer(w) else w
    decreases n
  {
    hide *;
    FirstPointer(b, n, mask);
    if i == 0 {
      assert b[8 * i..] == b;
    } else {
      PointerAt(b[8..], n - 1, i - 1, mask);
      assert b[8..][8 * (i - 1)..] == b[8 * i..];
    }
  }

  lemma FirstPointer(b: seq<byte>, n: nat, mask: bool)
    requires 0 < n && 8 * n <= |b|
    ensures var w := FromBigEndian(b[..8]);
            DecodePointers(b, n, mask) ==
            [if mask then MaskPointer(w) else w] + DecodePointers(b[8..], n - 1, mask)
  {
    hide FromBigEndian, MaskPointer;
  }

  lemma NoCounts(b: seq<byte>)
    ensures DecodeCounts(b, 0) == []
  {
  }

  lemma NextCount(b: seq<byte>, offset: nat, cs: nat, i: nat)
    requires offset + cs <= |b| && i < cs / 2
    ensures var all := Cluster(cs, b, offset);
            DecodeCounts(all[2 * i..], cs / 2 - i) ==
            [FromBigEndian(b[offset + 2 * i..offset + 2 * i + 2])] + DecodeCounts(all[2 * (i + 1)..], cs / 2 - (i + 1))
  {
    hide FromBigEndian;
    var all := Cluster(cs, b, offset);
    assert 2 * (i + 1) <= 2 * (cs / 2) <= cs;
    SliceOf(b, offset, cs, 2 * i, 2);
    assert all[2 * i..][2..] == all[2 * (i + 1)..];
  }

  lemma RoundUp(n: nat, cs: nat)
    requires 0 < cs
    ensures n <= (n + cs - 1) / cs * cs
  {
    var q := (n + cs - 1) / cs;
    assert n + cs - 1 == cs * q + (n + cs - 1) % cs;
    assert q * cs == cs * q;
  }

  /** The bytes of a pointer table, one word after the other. */
  method PointerBuffer(table: seq<nat>, flag: bool) returns (buffer: seq<byte>)
    ensures buffer == EncodePointers(table, flag)
  {
    buffer := [];
    for i := 0 to |table|
      invariant buffer + EncodePointers(table[i..], flag) == EncodePointers(table, flag)
      invariant |buffer| == 8 * i
    {
      assert table[i..][0] == table[i] && table[i..][1..] == table[i + 1..];
      var val := if table[i] == 0 then 0 else FlagPointer(table[i], flag);
      buffer := buffer + ToBigEndian(val, 8);
    }
  }
}
