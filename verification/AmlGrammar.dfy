/**
 * The grammar of AML (section 20.2 of the ACPI specification) as far as the encoder uses it: what
 * operands each opcode takes, and a decoder that follows it.
 */
module AmlGrammar {
  import opened HostBytes
  import opened Wrappers
  import opened AmlTerms

  datatype Opcode = Plain(code: byte) | Ext(code: byte)

  datatype Tail = Terms(terms: seq<Term>) | Raw(bytes: seq<byte>) | Fields(fields: seq<FieldEntry>)

  datatype Operand =
    | PathArg(path: Path)
    | ByteArg(n: nat)
    | WordArg(n: nat)
    | DWordArg(n: nat)
    | QWordArg(n: nat)
    | TextArg(text: seq<byte>)
    | TermArg(term: Term)
    | Block(head: seq<Operand>, tail: Tail)

  datatype TailKind = TermList | RawBytes | FieldList

  datatype Kind = KPath | KByte | KWord | KDWord | KQWord | KText | KTerm | KBlock(head: seq<Kind>, tail: TailKind)

  /** The operands of an opcode. */
  function Signature(op: Opcode): Option<seq<Kind>> {
    match op
    case Plain(c) =>
      if c == 0x00 || c == 0x01 || c == 0xff || 0x60 <= c <= 0x6e then Some([])
      else if c == 0x0a then Some([KByte])
      else if c == 0x0b then Some([KWord])
      else if c == 0x0c then Some([KDWord])
      else if c == 0x0e then Some([KQWord])
      else if c == 0x0d then Some([KText])
      else if c == 0x08 then Some([KPath, KTerm])
      else if c == 0x12 then Some([KBlock([KByte], TermList)])
      else if c == 0x11 then Some([KBlock([KTerm], RawBytes)])
      else if c == 0x10 then Some([KBlock([KPath], TermList)])
      else if c == 0x14 then Some([KBlock([KPath, KByte], TermList)])
      else if c == 0xa4 then Some([KTerm])
      else if c == 0xa0 || c == 0xa2 then Some([KBlock([KTerm], TermList)])
      else if c == 0x93 || c == 0x95 || c == 0x70 || c == 0x86 then Some([KTerm, KTerm])
      else if OpOfCode(c).Some? then Some([KTerm, KTerm, KTerm])
      else if c == 0x8f || c == 0x8a then Some([KTerm, KTerm, KPath])
      else None
    case Ext(c) =>
      if c == 0x82 then Some([KBlock([KPath], TermList)])
      else if c == 0x81 then Some([KBlock([KPath, KByte], FieldList)])
      else if c == 0x80 then Some([KPath, KByte, KTerm, KTerm])
      else if c == 0x01 then Some([KPath, KByte])
      else if c == 0x23 then Some([KPath, KWord])
      else if c == 0x27 then Some([KPath])
      else None
  }

  function OpOfCode(c: byte): Option<BinaryOp> {
    if c == 0x72 then Some(Add) else if c == 0x73 then Some(Concat) else if c == 0x74 then Some(Subtract)
    else if c == 0x77 then Some(Multiply) else if c == 0x79 then Some(ShiftLeft) else if c == 0x7a then Some(ShiftRight)
    else if c == 0x7b then Some(And) else if c == 0x7c then Some(Nand) else if c == 0x7d then Some(Or)
    else if c == 0x7e then Some(Nor) else if c == 0x7f then Some(Xor) else if c == 0x84 then Some(ConateRes)
    else if c == 0x85 then Some(Mod) else if c == 0x88 then Some(Index) else if c == 0x9c then Some(ToString)
    else None
  }

  /** The value of a constant. */
  function Number(t: Term): Option<nat> {
    if t.ByteConst? || t.WordConst? || t.DWordConst? || t.QWordConst? then Some(t.n) else None
  }

  /** The term an opcode and its operands stand for. */
  function Build(op: Opcode, os: seq<Operand>): Option<Term> {
    if op.Plain? then BuildPlain(op.code, os) else BuildExt(op.code, os)
  }

  function BuildPlain(c: byte, os: seq<Operand>): Option<Term> {
    if |os| == 0 then
      if c == 0x00 then Some(Zero) else if c == 0x01 then Some(One) else if c == 0xff then Some(Ones)
      else if 0x60 <= c <= 0x67 then Some(Local(c - 0x60)) else if 0x68 <= c <= 0x6e then Some(Arg(c - 0x68))
      else None
    else if |os| == 1 then BuildOne(c, os[0])
    else if |os| == 2 then
      if c == 0x08 && os[0].PathArg? && os[1].TermArg? then Some(NameDef(os[0].path, os[1].term))
      else if !os[0].TermArg? || !os[1].TermArg? then None
      else if c == 0x93 then Some(Equal(os[0].term, os[1].term))
      else if c == 0x95 then Some(LessThan(os[0].term, os[1].term))
      else if c == 0x70 then Some(Store(os[1].term, os[0].term))
      else if c == 0x86 then Some(Notify(os[0].term, os[1].term))
      else None
    else if |os| == 3 && os[0].TermArg? && os[1].TermArg? then
      if OpOfCode(c).Some? && os[2].TermArg? then Some(Binary(OpOfCode(c).value, os[2].term, os[0].term, os[1].term))
      else if (c == 0x8f || c == 0x8a) && os[2].PathArg?
      then Some(CreateField(c == 0x8f, os[0].term, os[1].term, os[2].path))
      else None
    else None
  }

  function BuildOne(c: byte, o: Operand): Option<Term> {
    match o
    case ByteArg(n) => Some(ByteConst(n))
    case WordArg(n) => Some(WordConst(n))
    case DWordArg(n) => Some(DWordConst(n))
    case QWordArg(n) => Some(QWordConst(n))
    case TextArg(text) => Some(Str(text))
    case TermArg(t) => Some(Return(t))
    case Block(head, Terms(ts)) =>
      if |head| == 1 && head[0].PathArg? && c == 0x10 then Some(Scope(head[0].path, ts))
      else if |head| == 1 && head[0].ByteArg? && c == 0x12 && head[0].n == |ts| then Some(Package(ts))
      else if |head| == 1 && head[0].TermArg? && c == 0xa0 then Some(If(head[0].term, ts))
      else if |head| == 1 && head[0].TermArg? && c == 0xa2 then Some(While(head[0].term, ts))
      else if |head| == 2 && head[0].PathArg? && head[1].ByteArg? && c == 0x14
      then Some(Method(head[0].path, head[1].n % 8, head[1].n / 8 % 2 == 1, ts))
      else None
    case Block(head, Raw(bytes)) =>
      if |head| == 1 && head[0].TermArg? && Number(head[0].term) == Some(|bytes|) then Some(Buffer(bytes)) else None
    case _ => None
  }

  function BuildExt(c: byte, os: seq<Operand>): Option<Term> {
    if c == 0x82 then
      if |os| == 1 && os[0].Block? && |os[0].head| == 1 && os[0].head[0].PathArg? && os[0].tail.Terms?
      then Some(Device(os[0].head[0].path, os[0].tail.terms)) else None
    else if c == 0x81 then
      if |os| == 1 && os[0].Block? && |os[0].head| == 2 && os[0].head[0].PathArg? && os[0].head[1].ByteArg? &&
      os[0].tail.Fields?
      then Some(Field(os[0].head[0].path, os[0].head[1].n % 16, os[0].head[1].n / 32, os[0].tail.fields)) else None
    else if |os| == 0 || !os[0].PathArg? then None
    else if |os| == 1 then if c == 0x27 then Some(Release(os[0].path)) else None
    else if |os| == 2 then
      if c == 0x01 && os[1].ByteArg? then Some(Mutex(os[0].path, os[1].n))
      else if c == 0x23 && os[1].WordArg? then Some(Acquire(os[0].path, os[1].n))
      else None
    else if |os| == 4 && c == 0x80 && os[1].ByteArg? && os[2].TermArg? && os[3].TermArg?
            && Number(os[2].term).Some? && Number(os[3].term).Some?
    then Some(OpRegion(os[0].path, os[1].n, Number(os[2].term).value, Number(os[3].term).value))
    else None
  }

  // Reading bytes.

  function FromLittleEndian(b: seq<byte>): nat {
    if b == [] then 0 else b[0] + 256 * FromLittleEndian(b[1..])
  }

  predicate LeadChar(c: byte) {
    0x41 <= c <= 0x5a || c == 0x5f
  }

  predicate NameStart(c: byte) {
    LeadChar(c) || c == 0x5c || c == 0x2e || c == 0x2f
  }

  function DecodeParts(n: nat, b: seq<byte>): (r: Option<(seq<seq<byte>>, seq<byte>)>)
    ensures r.Some? ==> |r.value.0| == n && |b| == |r.value.1| + 4 * n
  {
    if n == 0 then Some(([], b))
    else if |b| < 4 then None
    else match DecodeParts(n - 1, b[4..])
      case None => None
      case Some((parts, rest)) => Some(([b[..4]] + parts, rest))
  }

  function DecodeSegments(root: bool, b: seq<byte>): (r: Option<(Path, seq<byte>)>)
    ensures r.Some? ==> |r.value.1| < |b|
  {
    if b == [] then None else
    var (n, rest) := if b[0] == 0x2e then (2, b[1..])
                     else if b[0] == 0x2f && |b| >= 2 then (b[1], b[2..])
                     else (1, b);
    match DecodeParts(n, rest)
    case None => None
    case Some((parts, rest')) => if |rest'| < |b| then Some((Path(root, parts), rest')) else None
  }

  function DecodePath(b: seq<byte>): (r: Option<(Path, seq<byte>)>)
    ensures r.Some? ==> |r.value.1| < |b|
  {
    if b == [] then None
    else if b[0] == 0x5c then DecodeSegments(true, b[1..])
    else DecodeSegments(false, b)
  }

  function DecodeNumber(k: nat, b: seq<byte>): (r: Option<(nat, seq<byte>)>)
    ensures r.Some? ==> |b| == |r.value.1| + k
  {
    if |b| < k then None else Some((FromLittleEndian(b[..k]), b[k..]))
  }

  function DecodeText(b: seq<byte>): (r: Option<(seq<byte>, seq<byte>)>)
    ensures r.Some? ==> |r.value.1| < |b|
  {
    if b == [] then None
    else if b[0] == 0 then Some(([], b[1..]))
    else match DecodeText(b[1..])
      case None => None
      case Some((text, rest)) => Some(([b[0]] + text, rest))
  }

  /** A PkgLength: its value and the bytes behind it. */
  function DecodePkgLength(b: seq<byte>): (r: Option<(nat, seq<byte>)>)
    ensures r.Some? ==> |r.value.1| < |b|
  {
    if b == [] then None else
    var follow := b[0] / 64;
    if |b| < 1 + follow then None
    else if follow == 0 then Some((b[0], b[1..]))
    else Some((b[0] % 16 + 16 * FromLittleEndian(b[1..1 + follow]), b[1 + follow..]))
  }

  function DecodeField(b: seq<byte>): (r: Option<(FieldEntry, seq<byte>)>)
    ensures r.Some? ==> |r.value.1| < |b|
  {
    if b == [] then None
    else if b[0] == 0 then
      match DecodePkgLength(b[1..])
      case None => None
      case Some((n, rest)) => Some((Reserved(n), rest))
    else if |b| < 4 then None
    else match DecodePkgLength(b[4..])
      case None => None
      case Some((n, rest)) => Some((Named(b[..4], n), rest))
  }

  function DecodeFields(b: seq<byte>): Option<seq<FieldEntry>> {
    if b == [] then Some([]) else
    match DecodeField(b)
    case None => None
    case Some((f, rest)) =>
      match DecodeFields(rest)
      case None => None
      case Some(fs) => Some([f] + fs)
  }

  // Decoding. `arity` tells how many arguments a name takes.

  function DecodeTerm(arity: Path -> nat, b: seq<byte>): (r: Option<(Term, seq<byte>)>)
    ensures r.Some? ==> |r.value.1| < |b|
    decreases |b|, 2, 0
  {
    if b == [] then None
    else if NameStart(b[0]) then DecodeCall(arity, b)
    else if b[0] == 0x5b then if |b| == 1 then None else DecodeOp(arity, Ext(b[1]), b[2..])
    else DecodeOp(arity, Plain(b[0]), b[1..])
  }

  function DecodeCall(arity: Path -> nat, b: seq<byte>): (r: Option<(Term, seq<byte>)>)
    ensures r.Some? ==> |r.value.1| < |b|
    decreases |b|, 1, 0
  {
    match DecodePath(b)
    case None => None
    case Some((p, rest)) =>
      match DecodeMany(arity, arity(p), rest)
      case None => None
      case Some((args, rest')) => Some((if args == [] then Ref(p) else MethodCall(p, args), rest'))
  }

  function DecodeOp(arity: Path -> nat, op: Opcode, b: seq<byte>): (r: Option<(Term, seq<byte>)>)
    ensures r.Some? ==> |r.value.1| <= |b|
    decreases |b|, 5, 0
  {
    match Signature(op)
    case None => None
    case Some(sig) =>
      match DecodeOperands(arity, sig, b)
      case None => None
      case Some((os, rest)) =>
        match Build(op, os)
        case None => None
        case Some(t) => Some((t, rest))
  }

  function DecodeMany(arity: Path -> nat, n: nat, b: seq<byte>): (r: Option<(seq<Term>, seq<byte>)>)
    ensures r.Some? ==> |r.value.1| <= |b|
    decreases |b|, 3, n
  {
    if n == 0 then Some(([], b)) else
    match DecodeTerm(arity, b)
    case None => None
    case Some((t, rest)) =>
      match DecodeMany(arity, n - 1, rest)
      case None => None
      case Some((ts, rest')) => Some(([t] + ts, rest'))
  }

  function DecodeAll(arity: Path -> nat, b: seq<byte>): Option<seq<Term>>
    decreases |b|, 3, 0
  {
    if b == [] then Some([]) else
    match DecodeTerm(arity, b)
    case None => None
    case Some((t, rest)) =>
      match DecodeAll(arity, rest)
      case None => None
      case Some(ts) => Some([t] + ts)
  }

  function DecodeOperands(arity: Path -> nat, sig: seq<Kind>, b: seq<byte>): (r: Option<(seq<Operand>, seq<byte>)>)
    ensures r.Some? ==> |r.value.1| <= |b|
    decreases |b|, 4, |sig|
  {
    if sig == [] then Some(([], b)) else
    match DecodeOperand(arity, sig[0], b)
    case None => None
    case Some((o, rest)) =>
      match DecodeOperands(arity, sig[1..], rest)
      case None => None
      case Some((os, rest')) => Some(([o] + os, rest'))
  }

  function DecodeOperand(arity: Path -> nat, kind: Kind, b: seq<byte>): (r: Option<(Operand, seq<byte>)>)
    ensures r.Some? ==> |r.value.1| <= |b|
    decreases |b|, 3, 0
  {
    match kind
    case KPath => (match DecodePath(b) case None => None case Some((p, rest)) => Some((PathArg(p), rest)))
    case KByte => (match DecodeNumber(1, b) case None => None case Some((n, rest)) => Some((ByteArg(n), rest)))
    case KWord => (match DecodeNumber(2, b) case None => None case Some((n, rest)) => Some((WordArg(n), rest)))
    case KDWord => (match DecodeNumber(4, b) case None => None case Some((n, rest)) => Some((DWordArg(n), rest)))
    case KQWord => (match DecodeNumber(8, b) case None => None case Some((n, rest)) => Some((QWordArg(n), rest)))
    case KText => (match DecodeText(b) case None => None case Some((s, rest)) => Some((TextArg(s), rest)))
    case KTerm => (match DecodeTerm(arity, b) case None => None case Some((t, rest)) => Some((TermArg(t), rest)))
    case KBlock(head, tail) =>
      match DecodePkgLength(b)
      case None => None
      case Some((length, rest)) =>
        var used := |b| - |rest|;
        if length < used || |rest| < length - used then None else
        match DecodeBlock(arity, head, tail, rest[..length - used])
        case None => None
        case Some(o) => Some((o, rest[length - used..]))
  }

  /** The body of a package: some operands, then a list to its end. */
  function DecodeBlock(arity: Path -> nat, head: seq<Kind>, tail: TailKind, b: seq<byte>): Option<Operand>
    decreases |b|, 5, 0
  {
    match DecodeOperands(arity, head, b)
    case None => None
    case Some((os, rest)) =>
      match tail
      case RawBytes => Some(Block(os, Raw(rest)))
      case FieldList => (match DecodeFields(rest) case None => None case Some(fs) => Some(Block(os, Fields(fs))))
      case TermList => (match DecodeAll(arity, rest) case None => None case Some(ts) => Some(Block(os, Terms(ts))))
  }
}
