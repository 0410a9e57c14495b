/**
 * The tables a qcow2 file is made of, as they lie on disk: 64-bit pointers (L1, L2 and
 * refcount table) and 16-bit reference counts, all big-endian.
 */
module PointerTables {
  import opened HostBytes

  const BIT_62: nat := 0x4000_0000_0000_0000
  const BIT_63: nat := 0x8000_0000_0000_0000
  const ADDRESS_LIMIT: nat := 0x0100_0000_0000_0000

  /** An address a table can hold: bits 0-8 and 56-63 are reserved. */
  predicate IsPointer(a: nat) {
    a % 512 == 0 && a < ADDRESS_LIMIT
  }

  /** `w & 0x00ff_ffff_ffff_fe00`. */
  function MaskPointer(w: nat): nat {
    (w % ADDRESS_LIMIT) / 512 * 512
  }

  /** A non-zero pointer gets bit 63 (`CLUSTER_USED_FLAG`) ORed in when `flag` is set. */
  function FlagPointer(a: nat, flag: bool): nat {
    if a == 0 || !flag || a / BIT_63 % 2 == 1 then a else a + BIT_63
  }

  predicate IsCompressed(w: nat) {
    w / BIT_62 % 2 == 1
  }

  /** Masking on read undoes flagging on write, and never yields a compressed entry. */
  lemma MaskUndoesFlag(a: nat, flag: bool)
    requires IsPointer(a)
    ensures MaskPointer(FlagPointer(a, flag)) == a
    ensures !IsCompressed(FlagPointer(a, flag))
    ensures FlagPointer(a, flag) < Span(8)
  {
    SpanOfEight();
  }

  lemma SpanOfEight()
    ensures Span(8) == 0x1_0000_0000_0000_0000
  {
    assert Span(4) == 0x1_0000_0000 by {
      assert Span(2) == 0x1_0000;
    }
    assert Span(6) == 0x1_0000_0000_0000;
  }

  /** The bytes `write_pointer_table` puts on disk. */
  function EncodePointers(t: seq<nat>, flag: bool): (b: seq<byte>)
    ensures |b| == 8 * |t|
  {
    if t == [] then [] else ToBigEndian(FlagPointer(t[0], flag), 8) + EncodePointers(t[1..], flag)
  }

  /** The first `n` words of `b`, as `read_pointer_table` returns them. */
  function DecodePointers(b: seq<byte>, n: nat, mask: bool): (t: seq<nat>)
    requires 8 * n <= |b|
    ensures |t| == n
    decreases n
  {
    if n == 0 then [] else
    var w := FromBigEndian(b[..8]);
    [if mask then MaskPointer(w) else w] + DecodePointers(b[8..], n - 1, mask)
  }

  /** Some word of the table has the flag of a compressed cluster. */
  predicate AnyCompressed(b: seq<byte>, n: nat)
    requires 8 * n <= |b|
  {
    exists k :: 0 <= k < n && IsCompressed(DecodePointers(b, n, false)[k])
  }

  lemma {:induction false} PointersRoundTrip(t: seq<nat>, flag: bool, mask: bool)
    requires forall k :: 0 <= k < |t| ==> IsPointer(t[k])
    requires flag ==> mask
    ensures DecodePointers(EncodePointers(t, flag), |t|, mask) == t
  {
    if t != [] {
      PointersRoundTrip(t[1..], flag, mask);
      MaskUndoesFlag(t[0], flag);
      BigEndianRoundTrip(FlagPointer(t[0], flag), 8);
      var b := EncodePointers(t, flag);
      assert b[..8] == ToBigEndian(FlagPointer(t[0], flag), 8);
      assert b[8..] == EncodePointers(t[1..], flag);
      assert [t[0]] + t[1..] == t;
    }
  }

  /** A table that was written is never taken for a compressed one. */
  lemma {:induction false} WrittenNotCompressed(t: seq<nat>, flag: bool)
    requires forall k :: 0 <= k < |t| ==> IsPointer(t[k])
    ensures !AnyCompressed(EncodePointers(t, flag), |t|)
  {
    if t != [] {
      WrittenNotCompressed(t[1..], flag);
      MaskUndoesFlag(t[0], flag);
      BigEndianRoundTrip(FlagPointer(t[0], flag), 8);
      var b := EncodePointers(t, flag);
      assert b[..8] == ToBigEndian(FlagPointer(t[0], flag), 8);
      assert b[8..] == EncodePointers(t[1..], flag);
      assert DecodePointers(b, |t|, false) == [FlagPointer(t[0], flag)] + DecodePointers(b[8..], |t| - 1, false);
    }
  }

  /** A zeroed cluster is a table without pointers. */
  lemma {:induction false} PointersOfZeros(n: nat, mask: bool)
    ensures DecodePointers(Zeros(8 * n), n, mask) == seq(n, k => 0)
  {
    if n > 0 {
      PointersOfZeros(n - 1, mask);
      BigEndianOfZeros(8);
      assert Zeros(8 * n)[..8] == Zeros(8);
      assert Zeros(8 * n)[8..] == Zeros(8 * (n - 1));
      assert [0] + seq(n - 1, k => 0) == seq(n, k => 0);
    }
  }

  lemma {:induction false} DecodePrefix(b: seq<byte>, c: seq<byte>, n: nat)
    requires 8 * n <= |b| && 8 * n <= |c| && b[..8 * n] == c[..8 * n]
    ensures DecodePointers(b, n, false) == DecodePointers(c, n, false)
  {
    if n > 0 {
      assert b[..8] == b[..8 * n][..8] == c[..8];
      assert b[8..][..8 * (n - 1)] == b[..8 * n][8..] == c[8..][..8 * (n - 1)];
      DecodePrefix(b[8..], c[8..], n - 1);
    }
  }

  /** The bytes `write_refcount_block` puts on disk. */
  function EncodeCounts(t: seq<nat>): (b: seq<byte>)
    ensures |b| == 2 * |t|
  {
    if t == [] then [] else ToBigEndian(t[0], 2) + EncodeCounts(t[1..])
  }

  function DecodeCounts(b: seq<byte>, n: nat): (t: seq<nat>)
    requires 2 * n <= |b|
    ensures |t| == n
    decreases n
  {
    if n == 0 then [] else [FromBigEndian(b[..2])] + DecodeCounts(b[2..], n - 1)
  }

  lemma {:induction false} CountsRoundTrip(t: seq<nat>)
    requires forall k :: 0 <= k < |t| ==> t[k] < 0x1_0000
    ensures DecodeCounts(EncodeCounts(t), |t|) == t
  {
    if t != [] {
      CountsRoundTrip(t[1..]);
      assert Span(2) == 0x1_0000;
      BigEndianRoundTrip(t[0], 2);
      var b := EncodeCounts(t);
      assert b[..2] == ToBigEndian(t[0], 2);
      assert b[2..] == EncodeCounts(t[1..]);
      assert [t[0]] + t[1..] == t;
    }
  }

  lemma {:induction false} CountsOfZeros(n: nat)
    ensures DecodeCounts(Zeros(2 * n), n) == seq(n, k => 0)
  {
    if n > 0 {
      CountsOfZeros(n - 1);
      BigEndianOfZeros(2);
      assert Zeros(2 * n)[..2] == Zeros(2);
      assert Zeros(2 * n)[2..] == Zeros(2 * (n - 1));
      assert [0] + seq(n - 1, k => 0) == seq(n, k => 0);
    }
  }

  lemma {:induction false} CountsFit(b: seq<byte>, n: nat)
    requires 2 * n <= |b|
    ensures forall k :: 0 <= k < n ==> DecodeCounts(b, n)[k] < 0x1_0000
    decreases n
  {
    if n > 0 {
      CountsFit(b[2..], n - 1);
      assert FromBigEndian(b[..2]) < 0x1_0000 by {
        assert b[..2][..1][..0] == [];
        assert FromBigEndian(b[..2][..1]) == b[0];
      }
    }
  }

  lemma {:induction false} MaskedArePointers(b: seq<byte>, n: nat)
    requires 8 * n <= |b|
    ensures forall k :: 0 <= k < n ==> IsPointer(DecodePointers(b, n, true)[k])
    decreases n
  {
    if n > 0 {
      MaskedArePointers(b[8..], n - 1);
    }
  }

  /** Masking the raw words afterwards is the same as reading with the mask. */
  lemma {:induction false} MaskAfterwards(b: seq<byte>, n: nat)
    requires 8 * n <= |b|
    ensures var w, t := DecodePointers(b, n, false), DecodePointers(b, n, true);
            forall k :: 0 <= k < n ==> t[k] == MaskPointer(w[k])
    decreases n
  {
    if n > 0 {
      MaskAfterwards(b[8..], n - 1);
      var w := FromBigEndian(b[..8]);
      assert DecodePointers(b, n, false) == [w] + DecodePointers(b[8..], n - 1, false);
      assert DecodePointers(b, n, true) == [MaskPointer(w)] + DecodePointers(b[8..], n - 1, true);
    }
  }
}
