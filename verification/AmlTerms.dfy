/** ACPI Machine Language: the terms a machine's tables are built from, and their bytes. */
module AmlTerms {
  import opened HostBytes

  /** An absolute or relative name: one to 255 segments of four characters. */
  datatype Path = Path(root: bool, parts: seq<seq<byte>>)

  datatype FieldEntry = Named(name: seq<byte>, length: nat) | Reserved(length: nat)

  datatype BinaryOp =
    | Add | Concat | Subtract | Multiply | ShiftLeft | ShiftRight | And | Nand | Or | Nor | Xor
    | ConateRes | Mod | Index | ToString

  datatype Width = W16 | W32 | W64

  datatype Resource =
    | Memory32Fixed(readWrite: bool, base: nat, size: nat)
    | AddressSpace(width: Width, kind: nat, flags: nat, min: nat, max: nat)
    | Io(low: nat, high: nat, alignment: nat, count: nat)
    | Interrupt(consumer: bool, edgeTriggered: bool, activeLow: bool, shared: bool, number: nat)

  datatype Term =
    | Zero
    | One
    | Ones
    | Ref(path: Path)
    | ByteConst(n: nat)
    | WordConst(n: nat)
    | DWordConst(n: nat)
    | QWordConst(n: nat)
    | Usize(n: nat)
    | EisaName(name: seq<byte>)
    | Str(text: seq<byte>)
    | NameDef(path: Path, value: Term)
    | Package(children: seq<Term>)
    | ResourceTemplate(resources: seq<Resource>)
    | Buffer(data: seq<byte>)
    | Device(path: Path, children: seq<Term>)
    | Scope(path: Path, children: seq<Term>)
    | Method(path: Path, argCount: nat, serialized: bool, children: seq<Term>)
    | Return(value: Term)
    | Field(path: Path, access: nat, update: nat, fields: seq<FieldEntry>)
    | OpRegion(path: Path, space: nat, offset: nat, length: nat)
    | If(condition: Term, children: seq<Term>)
    | While(condition: Term, children: seq<Term>)
    | Equal(left: Term, right: Term)
    | LessThan(left: Term, right: Term)
    | Arg(n: nat)
    | Local(n: nat)
    | Store(target: Term, value: Term)
    | Mutex(path: Path, level: nat)
    | Acquire(path: Path, timeout: nat)
    | Release(path: Path)
    | Notify(notified: Term, value: Term)
    | Binary(op: BinaryOp, target: Term, a: Term, b: Term)
    | MethodCall(path: Path, args: seq<Term>)
    | CreateField(wide: bool, buffer: Term, offsetTerm: Term, path: Path)

  // Numbers.

  /** The low `n` bytes of `v`, least significant first. */
  function ToLittleEndian(v: nat, n: nat): (b: seq<byte>)
    ensures |b| == n
  {
    if n == 0 then [] else [v % 256] + ToLittleEndian(v / 256, n - 1)
  }

  function Low(v: nat): byte {
    v % 256
  }

  /** The length of a PkgLength for `n` bytes of data. */
  function PkgLengthBytes(n: nat): (k: nat)
    ensures 1 <= k <= 4
  {
    if n < 63 then 1 else if n < 4094 then 2 else if n < 1048573 then 3 else 4
  }

  /** The PkgLength for `n` bytes of data; it counts its own bytes when `includeSelf` is set. */
  function PkgLength(n: nat, includeSelf: bool): (b: seq<byte>)
    ensures |b| == PkgLengthBytes(n)
  {
    var k := PkgLengthBytes(n);
    var length := n + if includeSelf then k else 0;
    if k == 1 then [Low(length)]
    else if k == 2 then [Low(64 + length % 16), Low(length / 16)]
    else if k == 3 then [Low(128 + length % 16), Low(length / 16), Low(length / 4096)]
    else [Low(192 + length % 16), Low(length / 16), Low(length / 4096), Low(length / 1048576)]
  }

  // Encoding.

  function EncodeParts(parts: seq<seq<byte>>): seq<byte> {
    if parts == [] then [] else parts[0] + EncodeParts(parts[1..])
  }

  function EncodePath(p: Path): seq<byte> {
    (if p.root then [0x5c] else []) +
    (if |p.parts| == 1 then [] else if |p.parts| == 2 then [0x2e] else [0x2f, Low(|p.parts|)]) +
    EncodeParts(p.parts)
  }

  function EncodeByte(n: nat): seq<byte> {
    [0x0a, Low(n)]
  }

  function EncodeWord(n: nat): seq<byte> {
    [0x0b] + ToLittleEndian(n, 2)
  }

  function EncodeDWord(n: nat): seq<byte> {
    [0x0c] + ToLittleEndian(n, 4)
  }

  function EncodeQWord(n: nat): seq<byte> {
    [0x0e] + ToLittleEndian(n, 8)
  }

  /** A number in the least width that holds it. */
  function EncodeUsize(n: nat): seq<byte> {
    if n <= 0xff then EncodeByte(n)
    else if n <= 0xffff then EncodeWord(n)
    else if n <= 0xffff_ffff then EncodeDWord(n)
    else EncodeQWord(n)
  }

  /** The value of a hexadecimal digit. */
  function HexDigit(c: byte): nat {
    if 0x30 <= c <= 0x39 then c - 0x30
    else if 0x41 <= c <= 0x46 then c - 0x37
    else if 0x61 <= c <= 0x66 then c - 0x57
    else 0
  }

  predicate EisaOk(name: seq<byte>) {
    && |name| == 7
    && (forall i :: 0 <= i < 3 ==> 0x41 <= name[i] <= 0x5a)
    && (forall i :: 3 <= i < 7 ==> 0x30 <= name[i] <= 0x39 || 0x41 <= name[i] <= 0x46 || 0x61 <= name[i] <= 0x66)
  }

  /** The compressed identifier, before its bytes are swapped. */
  function EisaWord(name: seq<byte>): nat
    requires EisaOk(name)
  {
    (name[0] - 0x40) * 0x400_0000 + (name[1] - 0x40) * 0x20_0000 + (name[2] - 0x40) * 0x1_0000 +
    HexDigit(name[3]) * 0x1000 + HexDigit(name[4]) * 0x100 + HexDigit(name[5]) * 0x10 + HexDigit(name[6])
  }

  function SwapBytes(v: nat): nat {
    ((v % 256 * 256 + v / 256 % 256) * 256 + v / 256 / 256 % 256) * 256 + v / 256 / 256 / 256 % 256
  }

  function EisaValue(name: seq<byte>): nat {
    if EisaOk(name) then SwapBytes(EisaWord(name)) else 0
  }

  function BinaryCode(op: BinaryOp): byte {
    match op
    case Add => 0x72
    case Concat => 0x73
    case Subtract => 0x74
    case Multiply => 0x77
    case ShiftLeft => 0x79
    case ShiftRight => 0x7a
    case And => 0x7b
    case Nand => 0x7c
    case Or => 0x7d
    case Nor => 0x7e
    case Xor => 0x7f
    case ConateRes => 0x84
    case Mod => 0x85
    case Index => 0x88
    case ToString => 0x9c
  }

  // Resources.

  function Flag(b: bool, n: nat): nat {
    if b then n else 0
  }

  function WidthBytes(w: Width): nat {
    match w case W16 => 2 case W32 => 4 case W64 => 8
  }

  function WidthLimit(w: Width): nat {
    match w case W16 => 0x1_0000 case W32 => 0x1_0000_0000 case W64 => 0x1_0000_0000_0000_0000
  }

  function AddressTag(w: Width): byte {
    match w case W16 => 0x88 case W32 => 0x87 case W64 => 0x8a
  }

  function EncodeResource(r: Resource): seq<byte> {
    match r
    case Memory32Fixed(readWrite, base, size) =>
      [0x86] + ToLittleEndian(9, 2) + [Low(Flag(readWrite, 1))] + ToLittleEndian(base, 4) + ToLittleEndian(size, 4)
    case AddressSpace(w, kind, flags, min, max) =>
      var n := WidthBytes(w);
      [AddressTag(w)] + ToLittleEndian(3 + 5 * n, 2) + [Low(kind), 12, Low(flags)] + ToLittleEndian(0, n) +
      ToLittleEndian(min, n) + ToLittleEndian(max, n) + ToLittleEndian(0, n) +
      ToLittleEndian((max - min + 1) % WidthLimit(w), n)
    case Io(low, high, alignment, count) =>
      [0x47, 1] + ToLittleEndian(low, 2) + ToLittleEndian(high, 2) + [Low(alignment), Low(count)]
    case Interrupt(consumer, edgeTriggered, activeLow, shared, number) =>
      [0x89] + ToLittleEndian(6, 2) +
      [Low(Flag(shared, 8) + Flag(activeLow, 4) + Flag(edgeTriggered, 2) + Flag(consumer, 1)), 1] +
      ToLittleEndian(number, 4)
  }

  function EncodeResources(rs: seq<Resource>): seq<byte> {
    if rs == [] then [] else EncodeResource(rs[0]) + EncodeResources(rs[1..])
  }

  /** The contents of the buffer a template becomes: descriptors, end tag, zero checksum. */
  function TemplateData(rs: seq<Resource>): seq<byte> {
    EncodeResources(rs) + [0x79, 0]
  }

  // Terms.

  function Packaged(op: seq<byte>, body: seq<byte>): seq<byte> {
    op + PkgLength(|body|, true) + body
  }

  function EncodeBuffer(data: seq<byte>): seq<byte> {
    Packaged([0x11], EncodeUsize(|data|) + data)
  }

  function EncodeField(f: FieldEntry): seq<byte> {
    match f
    case Named(name, length) => name + PkgLength(length, false)
    case Reserved(length) => [0] + PkgLength(length, false)
  }

  function EncodeFields(fs: seq<FieldEntry>): seq<byte> {
    if fs == [] then [] else EncodeField(fs[0]) + EncodeFields(fs[1..])
  }

  function Encode(t: Term): seq<byte>
    decreases t, 0
  {
    match t
    case Zero => [0]
    case One => [1]
    case Ones => [0xff]
    case Ref(path) => EncodePath(path)
    case ByteConst(n) => EncodeByte(n)
    case WordConst(n) => EncodeWord(n)
    case DWordConst(n) => EncodeDWord(n)
    case QWordConst(n) => EncodeQWord(n)
    case Usize(n) => EncodeUsize(n)
    case EisaName(name) => EncodeDWord(EisaValue(name))
    case Str(text) => [0x0d] + text + [0]
    case NameDef(path, value) => [0x08] + EncodePath(path) + Encode(value)
    case Package(children) => Packaged([0x12], [Low(|children|)] + EncodeAll(children))
    case ResourceTemplate(resources) => EncodeBuffer(TemplateData(resources))
    case Buffer(data) => EncodeBuffer(data)
    case Device(path, children) => Packaged([0x5b, 0x82], EncodePath(path) + EncodeAll(children))
    case Scope(path, children) => Packaged([0x10], EncodePath(path) + EncodeAll(children))
    case Method(path, argCount, serialized, children) =>
      Packaged([0x14], EncodePath(path) + [Low(argCount % 8 + Flag(serialized, 8))] + EncodeAll(children))
    case Return(value) => [0xa4] + Encode(value)
    case Field(path, access, update, fields) =>
      Packaged([0x5b, 0x81], EncodePath(path) + [Low(access + update * 32)] + EncodeFields(fields))
    case OpRegion(path, space, offset, length) =>
      [0x5b, 0x80] + EncodePath(path) + [Low(space)] + EncodeUsize(offset) + EncodeUsize(length)
    case If(p, children) => Packaged([0xa0], Encode(p) + EncodeAll(children))
    case While(p, children) => Packaged([0xa2], Encode(p) + EncodeAll(children))
    case Equal(left, right) => [0x93] + Encode(left) + Encode(right)
    case LessThan(left, right) => [0x95] + Encode(left) + Encode(right)
    case Arg(n) => [Low(0x68 + n)]
    case Local(n) => [Low(0x60 + n)]
    case Store(target, value) => [0x70] + Encode(value) + Encode(target)
    case Mutex(path, level) => [0x5b, 0x01] + EncodePath(path) + [Low(level)]
    case Acquire(path, timeout) => [0x5b, 0x23] + EncodePath(path) + ToLittleEndian(timeout, 2)
    case Release(path) => [0x5b, 0x27] + EncodePath(path)
    case Notify(o, value) => [0x86] + Encode(o) + Encode(value)
    case Binary(op, target, a, b) => [BinaryCode(op)] + Encode(a) + Encode(b) + Encode(target)
    case MethodCall(path, args) => EncodePath(path) + EncodeAll(args)
    case CreateField(wide, buffer, offset, path) =>
      [if wide then 0x8f else 0x8a] + Encode(buffer) + Encode(offset) + EncodePath(path)
  }

  function EncodeAll(ts: seq<Term>): seq<byte>
    decreases ts, 1
  {
    if ts == [] then [] else Encode(ts[0]) + EncodeAll(ts[1..])
  }
}
