/** Bytes of the host file: big-endian words, and overwriting a range in place. */
module HostBytes {

  type byte = x: int | 0 <= x < 256

  function Zeros(n: nat): (z: seq<byte>)
    ensures |z| == n && forall k :: 0 <= k < n ==> z[k] == 0
  {
    seq(n, k => 0)
  }

  /** `v` as `n` bytes, most significant first; what does not fit is cut off. */
  function ToBigEndian(v: nat, n: nat): (b: seq<byte>)
    ensures |b| == n
  {
    if n == 0 then [] else ToBigEndian(v / 256, n - 1) + [v % 256]
  }

  function FromBigEndian(b: seq<byte>): nat {
    if b == [] then 0 else FromBigEndian(b[..|b| - 1]) * 256 + b[|b| - 1]
  }

  /** The number of values `n` bytes can hold. */
  function Span(n: nat): (s: nat)
    ensures 0 < s
  {
    if n == 0 then 1 else 256 * Span(n - 1)
  }

  lemma {:induction false} BigEndianRoundTrip(v: nat, n: nat)
    requires v < Span(n)
    ensures FromBigEndian(ToBigEndian(v, n)) == v
  {
    if n > 0 {
      BigEndianRoundTrip(v / 256, n - 1);
      assert ToBigEndian(v, n)[..n - 1] == ToBigEndian(v / 256, n - 1);
    }
  }

  lemma {:induction false} BigEndianOfZeros(n: nat)
    ensures FromBigEndian(Zeros(n)) == 0
  {
    if n > 0 {
      BigEndianOfZeros(n - 1);
      assert Zeros(n)[..n - 1] == Zeros(n - 1);
    }
  }

  /** Byte `off` of the host cluster at `a`; the missing cluster 0 reads as zero. */
  function ByteIn(b: seq<byte>, a: nat, off: nat): byte {
    if a == 0 || a + off >= |b| then 0 else b[a + off]
  }

  /** `b` with the bytes from `off` on overwritten by `d`. */
  function Splice(b: seq<byte>, off: nat, d: seq<byte>): (r: seq<byte>)
    requires off + |d| <= |b|
    ensures |r| == |b|
    ensures r[off..off + |d|] == d
  {
    b[..off] + d + b[off + |d|..]
  }

  /** Overwriting a range leaves every range beside it alone. */
  lemma SpliceApart(b: seq<byte>, off: nat, d: seq<byte>, lo: nat, hi: nat)
    requires off + |d| <= |b| && lo <= hi <= |b|
    requires hi <= off || off + |d| <= lo
    ensures Splice(b, off, d)[lo..hi] == b[lo..hi]
  {
    var r := Splice(b, off, d);
    forall k | lo <= k < hi
      ensures r[k] == b[k]
    {
    }
  }

  lemma SpliceAt(b: seq<byte>, off: nat, d: seq<byte>, u: nat)
    requires off + |d| <= |b| && u < |b|
    ensures Splice(b, off, d)[u] == if off <= u < off + |d| then d[u - off] else b[u]
  {
  }
}
