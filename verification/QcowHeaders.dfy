/** The header of an image file: big-endian words at the start of the file. */
module QcowHeaders {
  import opened Wrappers
  import opened HostBytes

  const QCOW_MAGIC: nat := 0x5146_49fb
  const DEFAULT_REFCOUNT_ORDER: nat := 4
  const V2_BARE_HEADER_SIZE: nat := 72
  const V3_BARE_HEADER_SIZE: nat := 104

  datatype Header = Header(
    version: nat, backingFileOffset: nat, backingFileSize: nat, clusterBits: nat, size: nat, cryptMethod: nat,
    l1Size: nat, l1TableOffset: nat, refcountTableOffset: nat, refcountTableClusters: nat, nbSnapshots: nat,
    snapshotsOffset: nat, incompatibleFeatures: nat, compatibleFeatures: nat, autoclearFeatures: nat,
    refcountOrder: nat, headerSize: nat)

  datatype HeaderError = InvalidMagic | ReadingHeader

  /** `values[i]` as a word of `widths[i]` bytes, one after the other. */
  function Words(values: seq<nat>, widths: seq<nat>): (b: seq<byte>)
    requires |values| == |widths|
    ensures |b| == Width(widths)
    decreases |values|
  {
    if values == [] then [] else ToBigEndian(values[0], widths[0]) + Words(values[1..], widths[1..])
  }

  function Width(widths: seq<nat>): nat {
    if widths == [] then 0 else widths[0] + Width(widths[1..])
  }

  /** The words of these widths at the start of `b`. */
  function ReadWords(b: seq<byte>, widths: seq<nat>): (values: seq<nat>)
    requires Width(widths) <= |b|
    ensures |values| == |widths|
    decreases |widths|
  {
    if widths == [] then [] else [FromBigEndian(b[..widths[0]])] + ReadWords(b[widths[0]..], widths[1..])
  }

  lemma {:induction false} WordsRoundTrip(values: seq<nat>, widths: seq<nat>, rest: seq<byte>)
    requires |values| == |widths| && forall i :: 0 <= i < |values| ==> values[i] < Span(widths[i])
    ensures ReadWords(Words(values, widths) + rest, widths) == values
    decreases |values|
  {
    if values != [] {
      hide FromBigEndian, ToBigEndian, Span;
      var word, more := ToBigEndian(values[0], widths[0]), Words(values[1..], widths[1..]) + rest;
      var b := Words(values, widths) + rest;
      assert b == word + more;
      assert b[..widths[0]] == word && b[widths[0]..] == more;
      WordsRoundTrip(values[1..], widths[1..], rest);
      BigEndianRoundTrip(values[0], widths[0]);
    }
  }

  /** The first words do not depend on how many are read. */
  lemma {:induction false} ReadPrefix(b: seq<byte>, v: seq<nat>, w: seq<nat>)
    requires Width(v + w) <= |b|
    ensures Width(v) <= |b| && ReadWords(b, v + w)[..|v|] == ReadWords(b, v)
    decreases |v|
  {
    hide FromBigEndian;
    WidthJoin(v, w);
    if v != [] {
      assert (v + w)[1..] == v[1..] + w;
      ReadPrefix(b[v[0]..], v[1..], w);
    }
  }

  // Magic and version come first; the words up to the offset of the snapshots are common to both versions.
  const V2_WIDTHS: seq<nat> := [4, 4, 8, 4, 4, 8, 4, 4, 8, 8, 4, 4, 8]
  const V3_WIDTHS: seq<nat> := V2_WIDTHS + [8, 8, 8, 4, 4]

  function CommonFields(h: Header): seq<nat> {
    [QCOW_MAGIC, h.version, h.backingFileOffset, h.backingFileSize, h.clusterBits, h.size, h.cryptMethod,
     h.l1Size, h.l1TableOffset, h.refcountTableOffset, h.refcountTableClusters, h.nbSnapshots, h.snapshotsOffset]
  }

  function Fields(h: Header): seq<nat> {
    CommonFields(h) +
    [h.incompatibleFeatures, h.compatibleFeatures, h.autoclearFeatures, h.refcountOrder, h.headerSize]
  }

  predicate Fits(h: Header) {
    forall i :: 0 <= i < |V3_WIDTHS| ==> Fields(h)[i] < Span(V3_WIDTHS[i])
  }

  lemma HeaderWidth()
    ensures Width(V2_WIDTHS) == V2_BARE_HEADER_SIZE && Width(V3_WIDTHS) == V3_BARE_HEADER_SIZE
  {
    hide Width;
    WidthFour(8, 8, 4, 4, [8]);
    WidthFour(4, 8, 4, 4, [8, 8, 4, 4, 8]);
    WidthFour(4, 4, 8, 4, [4, 8, 4, 4, 8, 8, 4, 4, 8]);
    WidthFour(8, 8, 8, 4, [4]);
    assert [8, 8, 4, 4] + [8] == [8, 8, 4, 4, 8];
    assert [4, 8, 4, 4] + [8, 8, 4, 4, 8] == [4, 8, 4, 4, 8, 8, 4, 4, 8];
    assert [4, 4, 8, 4] + [4, 8, 4, 4, 8, 8, 4, 4, 8] == V2_WIDTHS;
    assert [8, 8, 8, 4] + [4] == [8, 8, 8, 4, 4];
    WidthJoin(V2_WIDTHS, [8, 8, 8, 4, 4]);
    WidthLast(8);
    WidthLast(4);
  }

  lemma WidthLast(a: nat)
    ensures Width([a]) == a
  {
  }

  lemma WidthFour(a: nat, b: nat, c: nat, d: nat, w: seq<nat>)
    ensures [a, b, c, d] + w == [a] + ([b] + ([c] + ([d] + w)))
    ensures Width([a, b, c, d] + w) == a + b + c + d + Width(w)
  {
    hide Width;
    WidthOne(d, w);
    WidthOne(c, [d] + w);
    WidthOne(b, [c] + ([d] + w));
    WidthOne(a, [b] + ([c] + ([d] + w)));
  }

  lemma WidthOne(a: nat, w: seq<nat>)
    ensures Width([a] + w) == a + Width(w)
  {
    assert ([a] + w)[1..] == w;
  }

  lemma {:induction false} WidthJoin(v: seq<nat>, w: seq<nat>)
    ensures Width(v + w) == Width(v) + Width(w)
  {
    if v == [] {
      assert v + w == w;
    } else {
      assert (v + w)[1..] == v[1..] + w;
      WidthJoin(v[1..], w);
    }
  }

  /** The bytes `write_to` puts at the start of the file, all fields of version 3 whatever the version. */
  function EncodeHeader(h: Header): (b: seq<byte>)
    ensures |b| == V3_BARE_HEADER_SIZE
  {
    HeaderWidth();
    Words(Fields(h), V3_WIDTHS)
  }

  /** `QcowHeader::new`: a version 2 header has fixed values where version 3 has more fields. */
  function DecodeHeader(b: seq<byte>): Result<Header, HeaderError> {
    HeaderWidth();
    if |b| < 4 then Err(ReadingHeader)
    else if FromBigEndian(b[..4]) != QCOW_MAGIC then Err(InvalidMagic)
    else if |b| < V2_BARE_HEADER_SIZE then Err(ReadingHeader)
    else
      var w := ReadWords(b, V2_WIDTHS);
      if w[1] == 2 then Ok(FromFields(w, [0, 0, 0, DEFAULT_REFCOUNT_ORDER, V2_BARE_HEADER_SIZE]))
      else if |b| < V3_BARE_HEADER_SIZE then Err(ReadingHeader)
      else Ok(FromFields(w, ReadWords(b, V3_WIDTHS)[|V2_WIDTHS|..]))
  }

  function FromFields(w: seq<nat>, x: seq<nat>): Header
    requires |w| == |V2_WIDTHS| && |x| == 5
  {
    Header(w[1], w[2], w[3], w[4], w[5], w[6], w[7], w[8], w[9], w[10], w[11], w[12], x[0], x[1], x[2], x[3], x[4])
  }

  /** Reading back: every field of a version 3 header, the common fields of a version 2 one. */
  lemma HeaderRoundTrip(h: Header, rest: seq<byte>)
    requires Fits(h)
    ensures DecodeHeader(EncodeHeader(h) + rest) ==
            Ok(if h.version == 2
               then h.(incompatibleFeatures := 0, compatibleFeatures := 0, autoclearFeatures := 0,
                       refcountOrder := DEFAULT_REFCOUNT_ORDER, headerSize := V2_BARE_HEADER_SIZE)
               else h)
  {
    hide FromBigEndian, ToBigEndian, Span, ReadWords, Words;
    HeaderWidth();
    var b := EncodeHeader(h) + rest;
    WordsRoundTrip(Fields(h), V3_WIDTHS, rest);
    ReadPrefix(b, V2_WIDTHS, [8, 8, 8, 4, 4]);
    assert Fields(h)[..|V2_WIDTHS|] == CommonFields(h);
    FirstWord(b, V3_WIDTHS);
  }

  lemma FirstWord(b: seq<byte>, widths: seq<nat>)
    requires widths != [] && Width(widths) <= |b|
    ensures ReadWords(b, widths)[0] == FromBigEndian(b[..widths[0]])
  {
  }
}
