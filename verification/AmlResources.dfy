/** Resource descriptors (section 6.4 of the ACPI specification) and how a reader takes them apart. */
module AmlResources {
  import opened HostBytes
  import opened Wrappers
  import opened AmlTerms
  import opened AmlGrammar
  import opened AmlRoundTrip

  /** A number and the bytes it takes. */
  datatype Datum = Datum(width: nat, value: nat)

  function EncodeData(ds: seq<Datum>): seq<byte> {
    if ds == [] then [] else ToLittleEndian(ds[0].value, ds[0].width) + EncodeData(ds[1..])
  }

  function DecodeData(widths: seq<nat>, b: seq<byte>): (r: Option<(seq<nat>, seq<byte>)>)
    ensures r.Some? ==> |r.value.0| == |widths| && |r.value.1| <= |b|
  {
    if widths == [] then Some(([], b)) else
    match DecodeNumber(widths[0], b)
    case None => None
    case Some((v, rest)) =>
      match DecodeData(widths[1..], rest)
      case None => None
      case Some((vs, rest')) => Some(([v] + vs, rest'))
  }

  function Widths(ds: seq<Datum>): seq<nat> {
    seq(|ds|, i requires 0 <= i < |ds| => ds[i].width)
  }

  function Values(ds: seq<Datum>): seq<nat> {
    seq(|ds|, i requires 0 <= i < |ds| => ds[i].value)
  }

  predicate DatumOk(d: Datum) {
    d.value < Span(d.width)
  }

  lemma {:induction false} DataRoundTrip(ds: seq<Datum>, rest: seq<byte>)
    requires forall i :: 0 <= i < |ds| ==> DatumOk(ds[i])
    ensures DecodeData(Widths(ds), EncodeData(ds) + rest) == Some((Values(ds), rest))
  {
    hide *;
    if ds == [] {
      NoData(rest);
    } else {
      var d, more := ds[0], EncodeData(ds[1..]) + rest;
      DatumRoundTrip(d, more);
      DataRoundTrip(ds[1..], rest);
      DataCons(ds, rest);
      DecodeDataCons(d.width, Widths(ds[1..]), ToLittleEndian(d.value, d.width) + more, d.value, more,
                     Values(ds[1..]), rest);
    }
  }

  lemma NoData(rest: seq<byte>)
    ensures DecodeData(Widths([]), EncodeData([]) + rest) == Some((Values([]), rest))
  {
    assert EncodeData([]) + rest == rest && Widths([]) == [] && Values([]) == [];
  }

  lemma DatumRoundTrip(d: Datum, rest: seq<byte>)
    requires DatumOk(d)
    ensures DecodeNumber(d.width, ToLittleEndian(d.value, d.width) + rest) == Some((d.value, rest))
  {
    NumberRoundTrip(d.value, d.width, rest);
  }

  lemma DataCons(ds: seq<Datum>, rest: seq<byte>)
    requires ds != []
    ensures EncodeData(ds) + rest == ToLittleEndian(ds[0].value, ds[0].width) + (EncodeData(ds[1..]) + rest)
    ensures Widths(ds) == [ds[0].width] + Widths(ds[1..]) && Values(ds) == [ds[0].value] + Values(ds[1..])
  {
    hide ToLittleEndian, Widths, Values;
    ListsCons(ds);
    Regrouped(ToLittleEndian(ds[0].value, ds[0].width), EncodeData(ds[1..]), rest);
  }

  lemma Regrouped(first: seq<byte>, more: seq<byte>, rest: seq<byte>)
    ensures first + more + rest == first + (more + rest)
  {
  }

  lemma ListsCons(ds: seq<Datum>)
    requires ds != []
    ensures Widths(ds) == [ds[0].width] + Widths(ds[1..]) && Values(ds) == [ds[0].value] + Values(ds[1..])
  {
  }

  lemma DecodeDataCons(w: nat, ws: seq<nat>, b: seq<byte>, v: nat, rest1: seq<byte>, vs: seq<nat>, rest: seq<byte>)
    requires DecodeNumber(w, b) == Some((v, rest1)) && DecodeData(ws, rest1) == Some((vs, rest))
    ensures DecodeData([w] + ws, b) == Some(([v] + vs, rest))
  {
    hide DecodeNumber;
    assert ([w] + ws)[1..] == ws;
  }

  // Descriptors.

  predicate ResourceOk(r: Resource) {
    match r
    case Memory32Fixed(_, base, size) => base < 0x1_0000_0000 && size < 0x1_0000_0000
    case AddressSpace(w, kind, flags, min, max) => kind <= 2 && flags < 0x100 && min <= max < WidthLimit(w)
    case Io(low, high, alignment, count) => low < 0x1_0000 && high < 0x1_0000 && alignment < 0x100 && count < 0x100
    case Interrupt(_, _, _, _, number) => number < 0x1_0000_0000
  }

  function TagOf(r: Resource): byte {
    match r
    case Memory32Fixed(_, _, _) => 0x86
    case AddressSpace(w, _, _, _, _) => AddressTag(w)
    case Io(_, _, _, _) => 0x47
    case Interrupt(_, _, _, _, _) => 0x89
  }

  function InterruptFlags(r: Resource): nat
    requires r.Interrupt?
  {
    Flag(r.shared, 8) + Flag(r.activeLow, 4) + Flag(r.edgeTriggered, 2) + Flag(r.consumer, 1)
  }

  function DataOf(r: Resource): seq<Datum> {
    match r
    case Memory32Fixed(readWrite, base, size) => [Datum(2, 9), Datum(1, Flag(readWrite, 1)), Datum(4, base),
                                                  Datum(4, size)]
    case AddressSpace(w, kind, flags, min, max) =>
      var n := WidthBytes(w);
      [Datum(2, 3 + 5 * n), Datum(1, kind), Datum(1, 12), Datum(1, flags), Datum(n, 0), Datum(n, min), Datum(n, max),
       Datum(n, 0), Datum(n, (max - min + 1) % WidthLimit(w))]
    case Io(low, high, alignment, count) =>
      [Datum(1, 1), Datum(2, low), Datum(2, high), Datum(1, alignment), Datum(1, count)]
    case Interrupt(_, _, _, _, number) => [Datum(2, 6), Datum(1, InterruptFlags(r)), Datum(1, 1), Datum(4, number)]
  }

  /** The layout of the descriptor with a given tag. */
  function LayoutOf(tag: byte): Option<seq<nat>> {
    if tag == 0x86 then Some([2, 1, 4, 4])
    else if tag == 0x88 then Some([2, 1, 1, 1, 2, 2, 2, 2, 2])
    else if tag == 0x87 then Some([2, 1, 1, 1, 4, 4, 4, 4, 4])
    else if tag == 0x8a then Some([2, 1, 1, 1, 8, 8, 8, 8, 8])
    else if tag == 0x47 then Some([1, 2, 2, 1, 1])
    else if tag == 0x89 then Some([2, 1, 1, 4])
    else None
  }

  predicate Bit(v: nat, n: nat)
    requires 0 < n
  {
    v / n % 2 == 1
  }

  function BuildResource(tag: byte, vs: seq<nat>): Option<Resource> {
    if tag == 0x86 && |vs| == 4 then Some(Memory32Fixed(Bit(vs[1], 1), vs[2], vs[3]))
    else if tag == 0x47 && |vs| == 5 then Some(Io(vs[1], vs[2], vs[3], vs[4]))
    else if tag == 0x89 && |vs| == 4 then
      Some(Interrupt(Bit(vs[1], 1), Bit(vs[1], 2), Bit(vs[1], 4), Bit(vs[1], 8), vs[3]))
    else if |vs| == 9 && (tag == 0x88 || tag == 0x87 || tag == 0x8a) then
      Some(AddressSpace(if tag == 0x88 then W16 else if tag == 0x87 then W32 else W64, vs[1], vs[3], vs[5], vs[6]))
    else None
  }

  function DecodeResources(b: seq<byte>): Option<seq<Resource>>
    decreases |b|
  {
    if b == [] then None
    else if b[0] == 0x79 then if |b| == 2 then Some([]) else None
    else match LayoutOf(b[0])
      case None => None
      case Some(widths) =>
        match DecodeData(widths, b[1..])
        case None => None
        case Some((vs, rest)) =>
          match BuildResource(b[0], vs)
          case None => None
          case Some(r) =>
            match DecodeResources(rest)
            case None => None
            case Some(rs) => Some([r] + rs)
  }

  lemma EncodedAsData(r: Resource)
    ensures EncodeResource(r) == [TagOf(r)] + EncodeData(DataOf(r))
  {
    match r
    case Memory32Fixed(_, _, _) => MemoryAsData(r);
    case AddressSpace(_, _, _, _, _) => AddressAsData(r);
    case Io(_, _, _, _) => IoAsData(r);
    case Interrupt(_, _, _, _, _) => InterruptAsData(r);
  }

  lemma MemoryAsData(r: Resource)
    requires r.Memory32Fixed?
    ensures EncodeResource(r) == [TagOf(r)] + EncodeData(DataOf(r))
  {
    hide ToLittleEndian, EncodeData;
    OneByte(Flag(r.readWrite, 1));
    Data4(DataOf(r));
  }

  lemma AddressAsData(r: Resource)
    requires r.AddressSpace?
    ensures EncodeResource(r) == [TagOf(r)] + EncodeData(DataOf(r))
  {
    hide ToLittleEndian, EncodeData, WidthBytes, WidthLimit, AddressTag;
    OneByte(r.kind);
    OneByte(12);
    OneByte(r.flags);
    assert [Low(r.kind), 12, Low(r.flags)] == [Low(r.kind)] + [Low(12)] + [Low(r.flags)];
    Data9(DataOf(r));
  }

  lemma IoAsData(r: Resource)
    requires r.Io?
    ensures EncodeResource(r) == [TagOf(r)] + EncodeData(DataOf(r))
  {
    hide ToLittleEndian, EncodeData;
    OneByte(1);
    OneByte(r.alignment);
    OneByte(r.count);
    Data5(DataOf(r));
  }

  lemma InterruptAsData(r: Resource)
    requires r.Interrupt?
    ensures EncodeResource(r) == [TagOf(r)] + EncodeData(DataOf(r))
  {
    hide ToLittleEndian, EncodeData;
    OneByte(InterruptFlags(r));
    OneByte(1);
    Data4(DataOf(r));
  }

  lemma OneByte(v: nat)
    ensures ToLittleEndian(v, 1) == [Low(v)]
  {
  }

  lemma Data4(ds: seq<Datum>)
    requires |ds| == 4
    ensures EncodeData(ds) == ToLittleEndian(ds[0].value, ds[0].width) + ToLittleEndian(ds[1].value, ds[1].width)
                              + ToLittleEndian(ds[2].value, ds[2].width) + ToLittleEndian(ds[3].value, ds[3].width)
  {
    hide ToLittleEndian;
    assert EncodeData(ds[1..][1..][1..][1..]) == [];
    assert EncodeData(ds[1..][1..]) == ToLittleEndian(ds[2].value, ds[2].width) + EncodeData(ds[1..][1..][1..]);
  }

  lemma Data5(ds: seq<Datum>)
    requires |ds| == 5
    ensures EncodeData(ds) == ToLittleEndian(ds[0].value, ds[0].width) + ToLittleEndian(ds[1].value, ds[1].width)
                              + ToLittleEndian(ds[2].value, ds[2].width) + ToLittleEndian(ds[3].value, ds[3].width)
                              + ToLittleEndian(ds[4].value, ds[4].width)
  {
    hide ToLittleEndian;
    Data4(ds[1..]);
  }

  lemma Data9(ds: seq<Datum>)
    requires |ds| == 9
    ensures EncodeData(ds) == ToLittleEndian(ds[0].value, ds[0].width) + ToLittleEndian(ds[1].value, ds[1].width)
                              + ToLittleEndian(ds[2].value, ds[2].width) + ToLittleEndian(ds[3].value, ds[3].width)
                              + ToLittleEndian(ds[4].value, ds[4].width) + ToLittleEndian(ds[5].value, ds[5].width)
                              + ToLittleEndian(ds[6].value, ds[6].width) + ToLittleEndian(ds[7].value, ds[7].width)
                              + ToLittleEndian(ds[8].value, ds[8].width)
  {
    hide ToLittleEndian;
    var rest := ds[4..];
    Data5(rest);
    assert ds[1..][1..][1..][1..] == rest;
    assert EncodeData(ds[1..][1..][1..]) == ToLittleEndian(ds[3].value, ds[3].width) + EncodeData(rest);
    assert EncodeData(ds[1..][1..]) == ToLittleEndian(ds[2].value, ds[2].width) + EncodeData(ds[1..][1..][1..]);
    assert EncodeData(ds[1..]) == ToLittleEndian(ds[1].value, ds[1].width) + EncodeData(ds[1..][1..]);
  }

  lemma DataFits(r: Resource)
    requires ResourceOk(r)
    ensures forall i :: 0 <= i < |DataOf(r)| ==> DatumOk(DataOf(r)[i])
  {
    hide Span;
    SpansOk();
  }

  lemma LayoutFits(r: Resource)
    ensures LayoutOf(TagOf(r)) == Some(Widths(DataOf(r))) && TagOf(r) != 0x79
  {
    match r
    case Memory32Fixed(_, _, _) => assert Widths(DataOf(r)) == [2, 1, 4, 4];
    case AddressSpace(w, _, _, _, _) =>
      var n := WidthBytes(w);
      assert Widths(DataOf(r)) == [2, 1, 1, 1, n, n, n, n, n];
    case Io(_, _, _, _) => assert Widths(DataOf(r)) == [1, 2, 2, 1, 1];
    case Interrupt(_, _, _, _, _) => assert Widths(DataOf(r)) == [2, 1, 1, 4];
  }

  lemma ValuesFit(r: Resource)
    requires ResourceOk(r)
    ensures BuildResource(TagOf(r), Values(DataOf(r))) == Some(r)
  {
  }

  lemma NoDescriptors()
    ensures DecodeResources(TemplateData([])) == Some([])
  {
    assert TemplateData([]) == [0x79, 0];
  }

  lemma TemplateCons(rs: seq<Resource>)
    requires rs != []
    ensures TemplateData(rs) == EncodeResource(rs[0]) + TemplateData(rs[1..])
  {
    hide EncodeResource;
  }

  lemma DecodeCons(tag: byte, widths: seq<nat>, b: seq<byte>, vs: seq<nat>, rest: seq<byte>, r: Resource,
                   rs: seq<Resource>)
    requires tag != 0x79 && LayoutOf(tag) == Some(widths) && DecodeData(widths, b) == Some((vs, rest))
    requires BuildResource(tag, vs) == Some(r) && DecodeResources(rest) == Some(rs)
    ensures DecodeResources([tag] + b) == Some([r] + rs)
  {
    hide LayoutOf, DecodeData, BuildResource;
    assert ([tag] + b)[1..] == b;
  }

  /** A template's descriptors are recovered, in order, up to its end tag. */
  lemma {:induction false} TemplateRoundTrip(rs: seq<Resource>)
    requires forall i :: 0 <= i < |rs| ==> ResourceOk(rs[i])
    ensures DecodeResources(TemplateData(rs)) == Some(rs)
  {
    hide EncodeResource, DecodeData, BuildResource, LayoutOf, DataOf, TagOf, DecodeResources, EncodeData, Widths,
         Values, TemplateData, ResourceOk, DatumOk;
    if rs == [] {
      NoDescriptors();
    } else {
      var r, rest := rs[0], TemplateData(rs[1..]);
      EncodedAsData(r);
      DataFits(r);
      LayoutFits(r);
      ValuesFit(r);
      DataRoundTrip(DataOf(r), rest);
      TemplateRoundTrip(rs[1..]);
      TemplateCons(rs);
      assert [r] + rs[1..] == rs;
      assert [TagOf(r)] + EncodeData(DataOf(r)) + rest == [TagOf(r)] + (EncodeData(DataOf(r)) + rest);
      DecodeCons(TagOf(r), Widths(DataOf(r)), EncodeData(DataOf(r)) + rest, Values(DataOf(r)), rest, r, rs[1..]);
    }
  }
}
