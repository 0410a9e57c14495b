/** The encoder itself: every term appends its bytes to a growing vector. */
module AmlWriter {
  import opened HostBytes
  import opened AmlTerms

  method CreatePkgLength(dataLength: nat, includeSelf: bool) returns (result: seq<byte>)
    ensures result == PkgLength(dataLength, includeSelf)
  {
    // The length is inclusive and includes its own bytes.
    var lengthLength := if dataLength < 63 then 1 else if dataLength < 4094 then 2
                        else if dataLength < 1048573 then 3 else 4;
    var length := dataLength + if includeSelf then lengthLength else 0;
    result := [];
    if lengthLength == 1 {
      result := result + [Low(length)];
    } else {
      result := result + [Low(64 * (lengthLength - 1) + length % 16)];
      result := result + [Low(length / 16)];
      if lengthLength >= 3 {
        result := result + [Low(length / 4096)];
      }
      if lengthLength == 4 {
        result := result + [Low(length / 1048576)];
      }
    }
  }

  method AppendPath(p: Path, bytes: seq<byte>) returns (r: seq<byte>)
    ensures r == bytes + EncodePath(p)
  {
    hide EncodeParts;
    r := bytes;
    if p.root {
      r := r + [0x5c];
    }
    if |p.parts| == 2 {
      r := r + [0x2e];
    } else if |p.parts| != 1 {
      r := r + [0x2f, Low(|p.parts|)];
    }
    assert r + EncodeParts(p.parts) == bytes + EncodePath(p);
    r := AppendParts(p.parts, r);
  }

  method AppendParts(parts: seq<seq<byte>>, bytes: seq<byte>) returns (r: seq<byte>)
    ensures r == bytes + EncodeParts(parts)
  {
    r := bytes;
    for i := 0 to |parts|
      invariant r + EncodeParts(parts[i..]) == bytes + EncodeParts(parts)
    {
      assert parts[i..][0] == parts[i] && parts[i..][1..] == parts[i + 1..];
      r := r + parts[i];
    }
  }

  method AppendFields(fs: seq<FieldEntry>, bytes: seq<byte>) returns (r: seq<byte>)
    ensures r == bytes + EncodeFields(fs)
  {
    hide EncodeField, EncodeFields;
    r := bytes;
    assert fs[0..] == fs;
    for i := 0 to |fs|
      invariant r + EncodeFields(fs[i..]) == bytes + EncodeFields(fs)
    {
      FieldsFrom(fs, i);
      r := AppendEntry(fs[i], r);
    }
    NoFields(fs[|fs|..]);
  }

  lemma NoFields(fs: seq<FieldEntry>)
    requires fs == []
    ensures EncodeFields(fs) == []
  {
  }

  lemma FieldsFrom(fs: seq<FieldEntry>, i: nat)
    requires i < |fs|
    ensures EncodeFields(fs[i..]) == EncodeField(fs[i]) + EncodeFields(fs[i + 1..])
  {
    hide EncodeField;
    assert fs[i..][0] == fs[i] && fs[i..][1..] == fs[i + 1..];
  }

  method AppendEntry(f: FieldEntry, bytes: seq<byte>) returns (r: seq<byte>)
    ensures r == bytes + EncodeField(f)
  {
    hide PkgLength;
    r := if f.Named? then bytes + f.name else bytes + [0];
    var length := CreatePkgLength(f.length, false);
    r := r + length;
  }

  /** Opcode, length of the body, body. */
  method AppendPackage(op: seq<byte>, tmp: seq<byte>, bytes: seq<byte>) returns (r: seq<byte>)
    ensures r == bytes + Packaged(op, tmp)
  {
    var pkgLength := CreatePkgLength(|tmp|, true);
    r := bytes + op;
    r := r + pkgLength;
    r := r + tmp;
  }

  method AppendResources(rs: seq<Resource>) returns (tmp: seq<byte>)
    ensures tmp == TemplateData(rs)
  {
    tmp := [];
    for i := 0 to |rs|
      invariant tmp + EncodeResources(rs[i..]) == EncodeResources(rs)
    {
      assert rs[i..][0] == rs[i] && rs[i..][1..] == rs[i + 1..];
      tmp := tmp + EncodeResource(rs[i]);
    }
    // The end tag, and a checksum byte that is always valid.
    tmp := tmp + [0x79, 0];
  }

  method AppendUsize(n: nat, bytes: seq<byte>) returns (r: seq<byte>)
    ensures r == bytes + EncodeUsize(n)
  {
    if n <= 0xff {
      r := AppendNumber(0x0a, n, 1, bytes);
      assert ToLittleEndian(n, 1) == [Low(n)];
    } else if n <= 0xffff {
      r := AppendNumber(0x0b, n, 2, bytes);
    } else if n <= 0xffff_ffff {
      r := AppendNumber(0x0c, n, 4, bytes);
    } else {
      r := AppendNumber(0x0e, n, 8, bytes);
    }
  }

  /** A prefix and the bytes of a number, least significant first. */
  method AppendNumber(prefix: byte, n: nat, width: nat, bytes: seq<byte>) returns (r: seq<byte>)
    ensures r == bytes + [prefix] + ToLittleEndian(n, width)
  {
    r := bytes + [prefix];
    var v := n;
    for i := 0 to width
      invariant r + ToLittleEndian(v, width - i) == bytes + [prefix] + ToLittleEndian(n, width)
    {
      r := r + [Low(v)];
      v := v / 256;
    }
  }

  lemma Regroup(v: seq<byte>, o: seq<byte>, a: seq<byte>, b: seq<byte>, c: seq<byte>)
    ensures v + (o + a + b + c) == v + o + a + b + c
  {
    assert v + (o + a + b + c) == v + (o + a + b) + c;
    assert v + (o + a + b) == v + (o + a) + b;
    assert v + (o + a) == v + o + a;
  }

  method AppendStr(t: Term, bytes: seq<byte>) returns (r: seq<byte>)
    requires t.Str?
    ensures r == bytes + Encode(t)
    decreases t, 0
  {
    r := bytes + [0x0d];
    r := r + t.text;
    r := r + [0];
  }

  method AppendNameDef(t: Term, bytes: seq<byte>) returns (r: seq<byte>)
    requires t.NameDef?
    ensures r == bytes + Encode(t)
    decreases t, 0
  {
    r := AppendPath(t.path, bytes + [0x08]);
    r := AppendAmlBytes(t.value, r);
  }

  method AppendReturnOp(t: Term, bytes: seq<byte>) returns (r: seq<byte>)
    requires t.Return?
    ensures r == bytes + Encode(t)
    decreases t, 0
  {
    r := AppendAmlBytes(t.value, bytes + [0xa4]);
  }

  method AppendOpRegion(t: Term, bytes: seq<byte>) returns (r: seq<byte>)
    requires t.OpRegion?
    ensures r == bytes + Encode(t)
    decreases t, 0
  {
    r := AppendPath(t.path, bytes + [0x5b, 0x80]);
    r := AppendUsize(t.offset, r + [Low(t.space)]);
    r := AppendUsize(t.length, r);
  }

  method AppendMutex(t: Term, bytes: seq<byte>) returns (r: seq<byte>)
    requires t.Mutex?
    ensures r == bytes + Encode(t)
    decreases t, 0
  {
    r := AppendPath(t.path, bytes + [0x5b, 0x01]);
    r := r + [Low(t.level)];
  }

  method AppendAcquire(t: Term, bytes: seq<byte>) returns (r: seq<byte>)
    requires t.Acquire?
    ensures r == bytes + Encode(t)
    decreases t, 0
  {
    r := AppendPath(t.path, bytes + [0x5b, 0x23]);
    r := r + ToLittleEndian(t.timeout, 2);
  }

  method AppendMethodCall(t: Term, bytes: seq<byte>) returns (r: seq<byte>)
    requires t.MethodCall?
    ensures r == bytes + Encode(t)
    decreases t, 0
  {
    r := AppendPath(t.path, bytes);
    r := AppendAll(t.args, r);
  }

  method AppendEqual(t: Term, bytes: seq<byte>) returns (r: seq<byte>)
    requires t.Equal?
    ensures r == bytes + Encode(t)
    decreases t, 0
  {
    r := AppendAmlBytes(t.left, bytes + [0x93]);
    r := AppendAmlBytes(t.right, r);
  }

  method AppendLessThan(t: Term, bytes: seq<byte>) returns (r: seq<byte>)
    requires t.LessThan?
    ensures r == bytes + Encode(t)
    decreases t, 0
  {
    r := AppendAmlBytes(t.left, bytes + [0x95]);
    r := AppendAmlBytes(t.right, r);
  }

  method AppendStore(t: Term, bytes: seq<byte>) returns (r: seq<byte>)
    requires t.Store?
    ensures r == bytes + Encode(t)
    decreases t, 0
  {
    r := AppendAmlBytes(t.value, bytes + [0x70]);
    r := AppendAmlBytes(t.target, r);
  }

  method AppendNotify(t: Term, bytes: seq<byte>) returns (r: seq<byte>)
    requires t.Notify?
    ensures r == bytes + Encode(t)
    decreases t, 0
  {
    r := AppendAmlBytes(t.notified, bytes + [0x86]);
    r := AppendAmlBytes(t.value, r);
    Regroup(bytes, [0x86], Encode(t.notified), Encode(t.value), []);
  }

  method AppendBinary(t: Term, bytes: seq<byte>) returns (r: seq<byte>)
    requires t.Binary?
    ensures r == bytes + Encode(t)
    decreases t, 0
  {
    hide BinaryCode;
    r := AppendAmlBytes(t.a, bytes + [BinaryCode(t.op)]);
    r := AppendAmlBytes(t.b, r);
    r := AppendAmlBytes(t.target, r);
    Regroup(bytes, [BinaryCode(t.op)], Encode(t.a), Encode(t.b), Encode(t.target));
  }

  method AppendCreateField(t: Term, bytes: seq<byte>) returns (r: seq<byte>)
    requires t.CreateField?
    ensures r == bytes + Encode(t)
    decreases t, 0
  {
    hide EncodePath;
    var code: byte := if t.wide then 0x8f else 0x8a;
    r := AppendAmlBytes(t.buffer, bytes + [code]);
    r := AppendAmlBytes(t.offsetTerm, r);
    r := AppendPath(t.path, r);
    Regroup(bytes, [code], Encode(t.buffer), Encode(t.offsetTerm), EncodePath(t.path));
  }

  method AppendPackageOp(t: Term, bytes: seq<byte>) returns (r: seq<byte>)
    requires t.Package?
    ensures r == bytes + Encode(t)
    decreases t, 0
  {
    var tmp := AppendAll(t.children, [Low(|t.children|)]);
    r := AppendPackage([0x12], tmp, bytes);
  }

  method AppendTemplate(t: Term, bytes: seq<byte>) returns (r: seq<byte>)
    requires t.ResourceTemplate?
    ensures r == bytes + Encode(t)
    decreases t, 0
  {
    var tmp := AppendResources(t.resources);
    // The length is an encoded integer in front of the data.
    var length := AppendUsize(|tmp|, []);
    assert length == EncodeUsize(|tmp|);
    r := AppendPackage([0x11], length + tmp, bytes);
  }

  method AppendBuffer(t: Term, bytes: seq<byte>) returns (r: seq<byte>)
    requires t.Buffer?
    ensures r == bytes + Encode(t)
    decreases t, 0
  {
    var tmp := AppendUsize(|t.data|, []);
    assert tmp == EncodeUsize(|t.data|);
    r := AppendPackage([0x11], tmp + t.data, bytes);
  }

  method AppendDevice(t: Term, bytes: seq<byte>) returns (r: seq<byte>)
    requires t.Device?
    ensures r == bytes + Encode(t)
    decreases t, 0
  {
    var tmp := AppendPath(t.path, []);
    tmp := AppendAll(t.children, tmp);
    assert tmp == EncodePath(t.path) + EncodeAll(t.children);
    r := AppendPackage([0x5b, 0x82], tmp, bytes);
  }

  method AppendScope(t: Term, bytes: seq<byte>) returns (r: seq<byte>)
    requires t.Scope?
    ensures r == bytes + Encode(t)
    decreases t, 0
  {
    var tmp := AppendPath(t.path, []);
    tmp := AppendAll(t.children, tmp);
    assert tmp == EncodePath(t.path) + EncodeAll(t.children);
    r := AppendPackage([0x10], tmp, bytes);
  }

  method AppendMethodOp(t: Term, bytes: seq<byte>) returns (r: seq<byte>)
    requires t.Method?
    ensures r == bytes + Encode(t)
    decreases t, 0
  {
    var tmp := AppendPath(t.path, []);
    var flags := Low(t.argCount % 8 + Flag(t.serialized, 8));
    tmp := AppendAll(t.children, tmp + [flags]);
    assert tmp == EncodePath(t.path) + [flags] + EncodeAll(t.children);
    r := AppendPackage([0x14], tmp, bytes);
  }

  method AppendField(t: Term, bytes: seq<byte>) returns (r: seq<byte>)
    requires t.Field?
    ensures r == bytes + Encode(t)
    decreases t, 0
  {
    hide EncodePath, EncodeFields, PkgLength;
    var tmp := AppendPath(t.path, []);
    var flags := Low(t.access + t.update * 32);
    tmp := AppendFields(t.fields, tmp + [flags]);
    assert tmp == EncodePath(t.path) + [flags] + EncodeFields(t.fields);
    r := AppendPackage([0x5b, 0x81], tmp, bytes);
  }

  method AppendIf(t: Term, bytes: seq<byte>) returns (r: seq<byte>)
    requires t.If?
    ensures r == bytes + Encode(t)
    decreases t, 0
  {
    var tmp := AppendAmlBytes(t.condition, []);
    tmp := AppendAll(t.children, tmp);
    assert tmp == Encode(t.condition) + EncodeAll(t.children);
    r := AppendPackage([0xa0], tmp, bytes);
  }

  method AppendWhile(t: Term, bytes: seq<byte>) returns (r: seq<byte>)
    requires t.While?
    ensures r == bytes + Encode(t)
    decreases t, 0
  {
    var tmp := AppendAmlBytes(t.condition, []);
    tmp := AppendAll(t.children, tmp);
    assert tmp == Encode(t.condition) + EncodeAll(t.children);
    r := AppendPackage([0xa2], tmp, bytes);
  }

  /** Appends the bytes of a constant, a name or a variable. */
  method AppendSimple(t: Term, bytes: seq<byte>) returns (r: seq<byte>)
    requires t.Zero? || t.One? || t.Ones? || t.Ref? || t.ByteConst? || t.WordConst? || t.DWordConst? || t.QWordConst?
          || t.Usize? || t.EisaName? || t.Arg? || t.Local? || t.Release?
    ensures r == bytes + Encode(t)
    decreases t, 0
  {
    match t
    case Zero => r := bytes + [0];
    case One => r := bytes + [1];
    case Ones => r := bytes + [0xff];
    case Ref(path) => r := AppendPath(path, bytes);
    case ByteConst(n) => r := bytes + [0x0a, Low(n)];
    case WordConst(n) => r := AppendNumber(0x0b, n, 2, bytes);
    case DWordConst(n) => r := AppendNumber(0x0c, n, 4, bytes);
    case QWordConst(n) => r := AppendNumber(0x0e, n, 8, bytes);
    case Usize(n) => r := AppendUsize(n, bytes);
    case EisaName(name) => r := AppendNumber(0x0c, EisaValue(name), 4, bytes);
    case Arg(n) => r := bytes + [Low(0x68 + n)];
    case Local(n) => r := bytes + [Low(0x60 + n)];
    case Release(path) => r := AppendPath(path, bytes + [0x5b, 0x27]);
  }

  /** Appends the bytes of a term to `bytes`. */
  method AppendAmlBytes(t: Term, bytes: seq<byte>) returns (r: seq<byte>)
    ensures r == bytes + Encode(t)
    decreases t, 2
  {
    hide Encode;
    match t
    case Str(_) => r := AppendStr(t, bytes);
    case NameDef(_, _) => r := AppendNameDef(t, bytes);
    case Return(_) => r := AppendReturnOp(t, bytes);
    case OpRegion(_, _, _, _) => r := AppendOpRegion(t, bytes);
    case Mutex(_, _) => r := AppendMutex(t, bytes);
    case Acquire(_, _) => r := AppendAcquire(t, bytes);
    case MethodCall(_, _) => r := AppendMethodCall(t, bytes);
    case Equal(_, _) => r := AppendEqual(t, bytes);
    case LessThan(_, _) => r := AppendLessThan(t, bytes);
    case Store(_, _) => r := AppendStore(t, bytes);
    case Notify(_, _) => r := AppendNotify(t, bytes);
    case Binary(_, _, _, _) => r := AppendBinary(t, bytes);
    case CreateField(_, _, _, _) => r := AppendCreateField(t, bytes);
    case Package(_) => r := AppendPackageOp(t, bytes);
    case ResourceTemplate(_) => r := AppendTemplate(t, bytes);
    case Buffer(_) => r := AppendBuffer(t, bytes);
    case Device(_, _) => r := AppendDevice(t, bytes);
    case Scope(_, _) => r := AppendScope(t, bytes);
    case Method(_, _, _, _) => r := AppendMethodOp(t, bytes);
    case Field(_, _, _, _) => r := AppendField(t, bytes);
    case If(_, _) => r := AppendIf(t, bytes);
    case While(_, _) => r := AppendWhile(t, bytes);
    case _ => r := AppendSimple(t, bytes);
  }

  /** Appends the bytes of a list of terms. */
  method AppendAll(ts: seq<Term>, bytes: seq<byte>) returns (r: seq<byte>)
    ensures r == bytes + EncodeAll(ts)
    decreases ts, 3
  {
    hide Encode;
    r := bytes;
    for i := 0 to |ts|
      invariant r + EncodeAll(ts[i..]) == bytes + EncodeAll(ts)
    {
      assert ts[i..][0] == ts[i] && ts[i..][1..] == ts[i + 1..];
      r := AppendAmlBytes(ts[i], r);
    }
  }
}
