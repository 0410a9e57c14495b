/** Decoding what the encoder wrote gives the same tree back. */
module AmlRoundTrip {
  import opened Arithmetic
  import opened HostBytes
  import opened Wrappers
  import opened AmlTerms
  import opened AmlGrammar

  const PKG_LIMIT: nat := 0x1000_0000

  // What a term must be like for its bytes to mean what it says.

  predicate NameChar(c: byte) {
    LeadChar(c) || 0x30 <= c <= 0x39
  }

  predicate SegmentOk(s: seq<byte>) {
    |s| == 4 && LeadChar(s[0]) && forall i :: 0 <= i < 4 ==> NameChar(s[i])
  }

  predicate PathOk(p: Path) {
    1 <= |p.parts| <= 255 && forall i :: 0 <= i < |p.parts| ==> SegmentOk(p.parts[i])
  }

  predicate FieldOk(f: FieldEntry) {
    f.length < PKG_LIMIT && (f.Named? ==> SegmentOk(f.name))
  }

  /** A body of `n` bytes fits a package. */
  predicate Fits(n: nat) {
    n + 4 < PKG_LIMIT
  }

  predicate Legal(arity: Path -> nat, t: Term)
    decreases t, 0
  {
    match t
    case Zero => true
    case One => true
    case Ones => true
    case Ref(path) => PathOk(path) && arity(path) == 0
    case ByteConst(n) => n < 0x100
    case WordConst(n) => n < 0x1_0000
    case DWordConst(n) => n < 0x1_0000_0000
    case QWordConst(n) => n < 0x1_0000_0000_0000_0000
    case Usize(n) => n < 0x1_0000_0000_0000_0000
    case EisaName(name) => EisaOk(name)
    case Str(text) => 0 !in text
    case NameDef(path, value) => PathOk(path) && Legal(arity, value)
    case Package(children) => |children| <= 255 && LegalAll(arity, children) && Fits(1 + |EncodeAll(children)|)
    case ResourceTemplate(rs) => Fits(|EncodeUsize(|TemplateData(rs)|)| + |TemplateData(rs)|)
    case Buffer(data) => Fits(|EncodeUsize(|data|)| + |data|)
    case Device(path, children) =>
      PathOk(path) && LegalAll(arity, children) && Fits(|EncodePath(path)| + |EncodeAll(children)|)
    case Scope(path, children) =>
      PathOk(path) && LegalAll(arity, children) && Fits(|EncodePath(path)| + |EncodeAll(children)|)
    case Method(path, argCount, _, children) =>
      PathOk(path) && argCount <= 7 && LegalAll(arity, children) && Fits(|EncodePath(path)| + 1 + |EncodeAll(children)|)
    case Return(value) => Legal(arity, value)
    case Field(path, access, update, fields) =>
      && PathOk(path) && access <= 5 && update <= 2 && (forall i :: 0 <= i < |fields| ==> FieldOk(fields[i]))
      && Fits(|EncodePath(path)| + 1 + |EncodeFields(fields)|)
    case OpRegion(path, space, offset, length) =>
      PathOk(path) && space <= 9 && offset < 0x1_0000_0000_0000_0000 && length < 0x1_0000_0000_0000_0000
    case If(p, children) =>
      Legal(arity, p) && LegalAll(arity, children) && Fits(|Encode(p)| + |EncodeAll(children)|)
    case While(p, children) =>
      Legal(arity, p) && LegalAll(arity, children) && Fits(|Encode(p)| + |EncodeAll(children)|)
    case Equal(left, right) => Legal(arity, left) && Legal(arity, right)
    case LessThan(left, right) => Legal(arity, left) && Legal(arity, right)
    case Arg(n) => n <= 6
    case Local(n) => n <= 7
    case Store(target, value) => Legal(arity, target) && Legal(arity, value)
    case Mutex(path, level) => PathOk(path) && level < 0x100
    case Acquire(path, timeout) => PathOk(path) && timeout < 0x1_0000
    case Release(path) => PathOk(path)
    case Notify(o, value) => Legal(arity, o) && Legal(arity, value)
    case Binary(_, target, a, b) => Legal(arity, target) && Legal(arity, a) && Legal(arity, b)
    case MethodCall(path, args) => PathOk(path) && arity(path) == |args| && LegalAll(arity, args)
    case CreateField(_, buffer, offset, path) => Legal(arity, buffer) && Legal(arity, offset) && PathOk(path)
  }

  predicate LegalAll(arity: Path -> nat, ts: seq<Term>)
    decreases ts, 1
  {
    forall i :: 0 <= i < |ts| ==> Legal(arity, ts[i])
  }

  // Terms with equal encodings.

  function CanonNumber(n: nat): Term {
    if n <= 0xff then ByteConst(n)
    else if n <= 0xffff then WordConst(n)
    else if n <= 0xffff_ffff then DWordConst(n)
    else QWordConst(n)
  }

  /**
   * The term a reader takes the bytes for: a number in its least width for a size, a double word for
   * an EISA name, a buffer for a resource template, a name for a call without arguments.
   */
  function Canon(t: Term): Term
    decreases t, 0
  {
    match t
    case Usize(n) => CanonNumber(n)
    case EisaName(name) => DWordConst(EisaValue(name))
    case ResourceTemplate(rs) => Buffer(TemplateData(rs))
    case MethodCall(path, args) => if args == [] then Ref(path) else MethodCall(path, CanonAll(args))
    case NameDef(path, value) => NameDef(path, Canon(value))
    case Package(children) => Package(CanonAll(children))
    case Device(path, children) => Device(path, CanonAll(children))
    case Scope(path, children) => Scope(path, CanonAll(children))
    case Method(path, argCount, serialized, children) => Method(path, argCount, serialized, CanonAll(children))
    case Return(value) => Return(Canon(value))
    case If(p, children) => If(Canon(p), CanonAll(children))
    case While(p, children) => While(Canon(p), CanonAll(children))
    case Equal(left, right) => Equal(Canon(left), Canon(right))
    case LessThan(left, right) => LessThan(Canon(left), Canon(right))
    case Store(target, value) => Store(Canon(target), Canon(value))
    case Notify(o, value) => Notify(Canon(o), Canon(value))
    case Binary(op, target, a, b) => Binary(op, Canon(target), Canon(a), Canon(b))
    case CreateField(wide, buffer, offset, path) => CreateField(wide, Canon(buffer), Canon(offset), path)
    case _ => t
  }

  function CanonAll(ts: seq<Term>): (r: seq<Term>)
    ensures |r| == |ts|
    decreases ts, 1
  {
    if ts == [] then [] else [Canon(ts[0])] + CanonAll(ts[1..])
  }

  // Every term as an opcode with operands.

  predicate IsCall(t: Term) {
    t.Ref? || t.MethodCall?
  }

  predicate IsAlias(t: Term) {
    t.Usize? || t.EisaName? || t.ResourceTemplate?
  }

  function OpOf(t: Term): Opcode
    requires !IsCall(t) && !IsAlias(t)
  {
    match t
    case Zero => Plain(0x00)
    case One => Plain(0x01)
    case Ones => Plain(0xff)
    case ByteConst(_) => Plain(0x0a)
    case WordConst(_) => Plain(0x0b)
    case DWordConst(_) => Plain(0x0c)
    case QWordConst(_) => Plain(0x0e)
    case Str(_) => Plain(0x0d)
    case NameDef(_, _) => Plain(0x08)
    case Package(_) => Plain(0x12)
    case Buffer(_) => Plain(0x11)
    case Device(_, _) => Ext(0x82)
    case Scope(_, _) => Plain(0x10)
    case Method(_, _, _, _) => Plain(0x14)
    case Return(_) => Plain(0xa4)
    case Field(_, _, _, _) => Ext(0x81)
    case OpRegion(_, _, _, _) => Ext(0x80)
    case If(_, _) => Plain(0xa0)
    case While(_, _) => Plain(0xa2)
    case Equal(_, _) => Plain(0x93)
    case LessThan(_, _) => Plain(0x95)
    case Arg(n) => Plain(Low(0x68 + n))
    case Local(n) => Plain(Low(0x60 + n))
    case Store(_, _) => Plain(0x70)
    case Mutex(_, _) => Ext(0x01)
    case Acquire(_, _) => Ext(0x23)
    case Release(_) => Ext(0x27)
    case Notify(_, _) => Plain(0x86)
    case Binary(op, _, _, _) => Plain(BinaryCode(op))
    case CreateField(wide, _, _, _) => Plain(if wide then 0x8f else 0x8a)
  }

  function Operands(t: Term): seq<Operand>
    requires !IsCall(t) && !IsAlias(t)
  {
    match t
    case Zero => []
    case One => []
    case Ones => []
    case ByteConst(n) => [ByteArg(n)]
    case WordConst(n) => [WordArg(n)]
    case DWordConst(n) => [DWordArg(n)]
    case QWordConst(n) => [QWordArg(n)]
    case Str(text) => [TextArg(text)]
    case NameDef(path, value) => [PathArg(path), TermArg(value)]
    case Package(children) => [Block([ByteArg(|children|)], Terms(children))]
    case Buffer(data) => [Block([TermArg(Usize(|data|))], Raw(data))]
    case Device(path, children) => [Block([PathArg(path)], Terms(children))]
    case Scope(path, children) => [Block([PathArg(path)], Terms(children))]
    case Method(path, argCount, serialized, children) =>
      [Block([PathArg(path), ByteArg(argCount % 8 + Flag(serialized, 8))], Terms(children))]
    case Return(value) => [TermArg(value)]
    case Field(path, access, update, fields) =>
      [Block([PathArg(path), ByteArg(access + update * 32)], Fields(fields))]
    case OpRegion(path, space, offset, length) =>
      [PathArg(path), ByteArg(space), TermArg(Usize(offset)), TermArg(Usize(length))]
    case If(p, children) => [Block([TermArg(p)], Terms(children))]
    case While(p, children) => [Block([TermArg(p)], Terms(children))]
    case Equal(left, right) => [TermArg(left), TermArg(right)]
    case LessThan(left, right) => [TermArg(left), TermArg(right)]
    case Arg(_) => []
    case Local(_) => []
    case Store(target, value) => [TermArg(value), TermArg(target)]
    case Mutex(path, level) => [PathArg(path), ByteArg(level)]
    case Acquire(path, timeout) => [PathArg(path), WordArg(timeout)]
    case Release(path) => [PathArg(path)]
    case Notify(o, value) => [TermArg(o), TermArg(value)]
    case Binary(_, target, a, b) => [TermArg(a), TermArg(b), TermArg(target)]
    case CreateField(_, buffer, offset, path) => [TermArg(buffer), TermArg(offset), PathArg(path)]
  }

  function OpBytes(op: Opcode): seq<byte> {
    if op.Plain? then [op.code] else [0x5b, op.code]
  }

  function EncodeTail(tail: Tail): seq<byte> {
    match tail
    case Terms(ts) => EncodeAll(ts)
    case Raw(bytes) => bytes
    case Fields(fs) => EncodeFields(fs)
  }

  function EncodeOperand(o: Operand): seq<byte>
    decreases o, 0
  {
    match o
    case PathArg(p) => EncodePath(p)
    case ByteArg(n) => ToLittleEndian(n, 1)
    case WordArg(n) => ToLittleEndian(n, 2)
    case DWordArg(n) => ToLittleEndian(n, 4)
    case QWordArg(n) => ToLittleEndian(n, 8)
    case TextArg(text) => text + [0]
    case TermArg(t) => Encode(t)
    case Block(head, tail) => Packaged([], EncodeOperands(head) + EncodeTail(tail))
  }

  function EncodeOperands(os: seq<Operand>): seq<byte>
    decreases os, 1
  {
    if os == [] then [] else EncodeOperand(os[0]) + EncodeOperands(os[1..])
  }

  function KindOf(o: Operand): Kind
    decreases o, 0
  {
    match o
    case PathArg(_) => KPath
    case ByteArg(_) => KByte
    case WordArg(_) => KWord
    case DWordArg(_) => KDWord
    case QWordArg(_) => KQWord
    case TextArg(_) => KText
    case TermArg(_) => KTerm
    case Block(head, tail) => KBlock(KindsOf(head), TailKindOf(tail))
  }

  function TailKindOf(tail: Tail): TailKind {
    match tail case Terms(_) => TermList case Raw(_) => RawBytes case Fields(_) => FieldList
  }

  function KindsOf(os: seq<Operand>): seq<Kind>
    decreases os, 1
  {
    if os == [] then [] else [KindOf(os[0])] + KindsOf(os[1..])
  }

  function CanonTail(tail: Tail): Tail {
    if tail.Terms? then Terms(CanonAll(tail.terms)) else tail
  }

  function CanonOperand(o: Operand): Operand
    decreases o, 0
  {
    match o
    case TermArg(t) => TermArg(Canon(t))
    case Block(head, tail) => Block(CanonOperands(head), CanonTail(tail))
    case _ => o
  }

  function CanonOperands(os: seq<Operand>): seq<Operand>
    decreases os, 1
  {
    if os == [] then [] else [CanonOperand(os[0])] + CanonOperands(os[1..])
  }

  predicate LegalTail(arity: Path -> nat, tail: Tail) {
    match tail
    case Terms(ts) => LegalAll(arity, ts)
    case Raw(_) => true
    case Fields(fs) => forall i :: 0 <= i < |fs| ==> FieldOk(fs[i])
  }

  predicate LegalOperand(arity: Path -> nat, o: Operand)
    decreases o, 0
  {
    match o
    case PathArg(p) => PathOk(p)
    case ByteArg(n) => n < 0x100
    case WordArg(n) => n < 0x1_0000
    case DWordArg(n) => n < 0x1_0000_0000
    case QWordArg(n) => n < 0x1_0000_0000_0000_0000
    case TextArg(text) => 0 !in text
    case TermArg(t) => Legal(arity, t)
    case Block(head, tail) =>
      LegalOperands(arity, head) && LegalTail(arity, tail) && Fits(|EncodeOperands(head)| + |EncodeTail(tail)|)
  }

  predicate LegalOperands(arity: Path -> nat, os: seq<Operand>)
    decreases os, 1
  {
    forall i :: 0 <= i < |os| ==> LegalOperand(arity, os[i])
  }

  lemma NoOps()
    ensures EncodeOperands([]) == [] && KindsOf([]) == [] && CanonOperands([]) == []
  {
  }

  lemma ConsOps(a: Operand, os: seq<Operand>)
    ensures EncodeOperands([a] + os) == EncodeOperand(a) + EncodeOperands(os)
    ensures KindsOf([a] + os) == [KindOf(a)] + KindsOf(os)
    ensures CanonOperands([a] + os) == [CanonOperand(a)] + CanonOperands(os)
  {
    assert ([a] + os)[1..] == os;
  }

  lemma Ops1(a: Operand)
    ensures EncodeOperands([a]) == EncodeOperand(a)
    ensures KindsOf([a]) == [KindOf(a)] && CanonOperands([a]) == [CanonOperand(a)]
  {
    hide *;
    NoOps();
    ConsOps(a, []);
    assert [a] + [] == [a];
  }

  lemma Ops2(a: Operand, b: Operand)
    ensures EncodeOperands([a, b]) == EncodeOperand(a) + EncodeOperand(b)
    ensures KindsOf([a, b]) == [KindOf(a), KindOf(b)] && CanonOperands([a, b]) == [CanonOperand(a), CanonOperand(b)]
  {
    hide *;
    Ops1(b);
    ConsOps(a, [b]);
    assert [a] + [b] == [a, b];
  }

  lemma Ops3(a: Operand, b: Operand, c: Operand)
    ensures EncodeOperands([a, b, c]) == EncodeOperand(a) + EncodeOperand(b) + EncodeOperand(c)
    ensures KindsOf([a, b, c]) == [KindOf(a), KindOf(b), KindOf(c)]
    ensures CanonOperands([a, b, c]) == [CanonOperand(a), CanonOperand(b), CanonOperand(c)]
  {
    hide *;
    Ops2(b, c);
    ConsOps(a, [b, c]);
    assert [a] + [b, c] == [a, b, c];
  }

  lemma Ops4(a: Operand, b: Operand, c: Operand, d: Operand)
    ensures EncodeOperands([a, b, c, d]) == EncodeOperand(a) + EncodeOperand(b) + EncodeOperand(c) + EncodeOperand(d)
    ensures KindsOf([a, b, c, d]) == [KindOf(a), KindOf(b), KindOf(c), KindOf(d)]
    ensures CanonOperands([a, b, c, d]) == [CanonOperand(a), CanonOperand(b), CanonOperand(c), CanonOperand(d)]
  {
    hide *;
    Ops3(b, c, d);
    ConsOps(a, [b, c, d]);
    assert [a] + [b, c, d] == [a, b, c, d];
  }

  /** What the functions on operands say about a package. */
  lemma BlockParts(arity: Path -> nat, head: seq<Operand>, tail: Tail)
    ensures EncodeOperand(Block(head, tail)) == Packaged([], EncodeOperands(head) + EncodeTail(tail))
    ensures KindOf(Block(head, tail)) == KBlock(KindsOf(head), TailKindOf(tail))
    ensures CanonOperand(Block(head, tail)) == Block(CanonOperands(head), CanonTail(tail))
    ensures LegalOperand(arity, Block(head, tail)) <==>
            LegalOperands(arity, head) && LegalTail(arity, tail) && Fits(|EncodeOperands(head)| + |EncodeTail(tail)|)
  {
  }

  lemma PackagedAfter(op: seq<byte>, body: seq<byte>)
    ensures Packaged(op, body) == op + Packaged([], body)
  {
    hide PkgLength;
  }

  /** The encoding of `t` follows the grammar, and the grammar leads back to `t`. */
  ghost predicate Follows(arity: Path -> nat, t: Term, op: Opcode, os: seq<Operand>) {
    && Encode(t) == OpBytes(op) + EncodeOperands(os)
    && (op.Plain? ==> !NameStart(op.code) && op.code != 0x5b)
    && Signature(op) == Some(KindsOf(os))
    && LegalOperands(arity, os)
    && Build(op, CanonOperands(os)) == Some(Canon(t))
  }

  lemma FollowsNone(arity: Path -> nat, t: Term, c: byte)
    requires !NameStart(c) && c != 0x5b && Signature(Plain(c)) == Some([]) && Encode(t) == [c]
    requires Build(Plain(c), []) == Some(t) == Some(Canon(t))
    ensures Follows(arity, t, Plain(c), [])
  {
    hide Encode, Canon, Build, Signature, NameStart;
  }

  lemma FollowsOne(arity: Path -> nat, t: Term, op: Opcode, a: Operand)
    requires (op.Plain? ==> !NameStart(op.code) && op.code != 0x5b) && Signature(op) == Some([KindOf(a)])
    requires Encode(t) == OpBytes(op) + EncodeOperand(a) && LegalOperand(arity, a)
    requires Build(op, [CanonOperand(a)]) == Some(Canon(t))
    ensures Follows(arity, t, op, [a])
  {
    hide Encode, EncodeOperand, EncodeOperands, Canon, CanonOperand, CanonOperands, KindOf, KindsOf, LegalOperand,
         Build, Signature, NameStart, OpBytes;
    Ops1(a);
  }

  lemma FollowsTwo(arity: Path -> nat, t: Term, op: Opcode, a: Operand, b: Operand)
    requires (op.Plain? ==> !NameStart(op.code) && op.code != 0x5b) && Signature(op) == Some([KindOf(a), KindOf(b)])
    requires Encode(t) == OpBytes(op) + EncodeOperand(a) + EncodeOperand(b)
    requires LegalOperand(arity, a) && LegalOperand(arity, b)
    requires Build(op, [CanonOperand(a), CanonOperand(b)]) == Some(Canon(t))
    ensures Follows(arity, t, op, [a, b])
  {
    hide Encode, EncodeOperand, EncodeOperands, Canon, CanonOperand, CanonOperands, KindOf, KindsOf, LegalOperand,
         Build, Signature, NameStart, OpBytes;
    Ops2(a, b);
  }

  lemma FollowsThree(arity: Path -> nat, t: Term, op: Opcode, a: Operand, b: Operand, c: Operand)
    requires op.Plain? ==> !NameStart(op.code) && op.code != 0x5b
    requires Signature(op) == Some([KindOf(a), KindOf(b), KindOf(c)])
    requires Encode(t) == OpBytes(op) + EncodeOperand(a) + EncodeOperand(b) + EncodeOperand(c)
    requires LegalOperand(arity, a) && LegalOperand(arity, b) && LegalOperand(arity, c)
    requires Build(op, [CanonOperand(a), CanonOperand(b), CanonOperand(c)]) == Some(Canon(t))
    ensures Follows(arity, t, op, [a, b, c])
  {
    hide Encode, EncodeOperand, EncodeOperands, Canon, CanonOperand, CanonOperands, KindOf, KindsOf, LegalOperand,
         Build, Signature, NameStart, OpBytes;
    Ops3(a, b, c);
  }

  lemma Regroup(o: seq<byte>, a: seq<byte>, b: seq<byte>, c: seq<byte>, d: seq<byte>)
    ensures o + (a + b + c + d) == o + a + b + c + d
  {
    assert o + (a + b + c + d) == o + (a + b + c) + d;
    assert o + (a + b + c) == o + (a + b) + c;
    assert o + (a + b) == o + a + b;
  }

  lemma FollowsFour(arity: Path -> nat, t: Term, op: Opcode, a: Operand, b: Operand, c: Operand, d: Operand)
    requires op.Plain? ==> !NameStart(op.code) && op.code != 0x5b
    requires Signature(op) == Some([KindOf(a), KindOf(b), KindOf(c), KindOf(d)])
    requires Encode(t) == OpBytes(op) + EncodeOperand(a) + EncodeOperand(b) + EncodeOperand(c) + EncodeOperand(d)
    requires LegalOperand(arity, a) && LegalOperand(arity, b) && LegalOperand(arity, c) && LegalOperand(arity, d)
    requires Build(op, [CanonOperand(a), CanonOperand(b), CanonOperand(c), CanonOperand(d)]) == Some(Canon(t))
    ensures Follows(arity, t, op, [a, b, c, d])
  {
    hide Encode, EncodeOperand, EncodeOperands, Canon, CanonOperand, CanonOperands, KindOf, KindsOf, LegalOperand,
         Build, Signature, NameStart, OpBytes;
    Ops4(a, b, c, d);
    Regroup(OpBytes(op), EncodeOperand(a), EncodeOperand(b), EncodeOperand(c), EncodeOperand(d));
  }

  lemma LegalOne(arity: Path -> nat, h: Operand)
    requires LegalOperand(arity, h)
    ensures LegalOperands(arity, [h])
  {
  }

  lemma FlagsHead(arity: Path -> nat, path: Path, flags: nat)
    requires PathOk(path) && flags < 0x100
    ensures LegalOperands(arity, [PathArg(path), ByteArg(flags)])
    ensures EncodeOperand(PathArg(path)) == EncodePath(path) && EncodeOperand(ByteArg(flags)) == [Low(flags)]
    ensures KindOf(PathArg(path)) == KPath && KindOf(ByteArg(flags)) == KByte
    ensures CanonOperand(PathArg(path)) == PathArg(path) && CanonOperand(ByteArg(flags)) == ByteArg(flags)
  {
    assert ToLittleEndian(flags, 1) == [Low(flags)];
  }

  /** A package that starts with one operand. */
  lemma FollowsBlock(arity: Path -> nat, t: Term, op: Opcode, h: Operand, tail: Tail)
    requires op.Plain? ==> !NameStart(op.code) && op.code != 0x5b
    requires Signature(op) == Some([KBlock([KindOf(h)], TailKindOf(tail))])
    requires Encode(t) == Packaged(OpBytes(op), EncodeOperand(h) + EncodeTail(tail))
    requires LegalOperand(arity, h) && LegalTail(arity, tail) && Fits(|EncodeOperand(h)| + |EncodeTail(tail)|)
    requires Build(op, [Block([CanonOperand(h)], CanonTail(tail))]) == Some(Canon(t))
    ensures Follows(arity, t, op, [Block([h], tail)])
  {
    hide *;
    Ops1(h);
    BlockParts(arity, [h], tail);
    LegalOne(arity, h);
    PackagedAfter(OpBytes(op), EncodeOperand(h) + EncodeTail(tail));
    FollowsOne(arity, t, op, Block([h], tail));
  }

  /** A package that starts with a name and flags. */
  lemma FollowsFlags(arity: Path -> nat, t: Term, op: Opcode, path: Path, flags: nat, tail: Tail)
    requires op.Plain? ==> !NameStart(op.code) && op.code != 0x5b
    requires Signature(op) == Some([KBlock([KPath, KByte], TailKindOf(tail))])
    requires Encode(t) == Packaged(OpBytes(op), EncodePath(path) + [Low(flags)] + EncodeTail(tail))
    requires PathOk(path) && flags < 0x100 && LegalTail(arity, tail)
    requires Fits(|EncodePath(path)| + 1 + |EncodeTail(tail)|)
    requires Build(op, [Block([PathArg(path), ByteArg(flags)], CanonTail(tail))]) == Some(Canon(t))
    ensures Follows(arity, t, op, [Block([PathArg(path), ByteArg(flags)], tail)])
  {
    hide *;
    var head := [PathArg(path), ByteArg(flags)];
    Ops2(PathArg(path), ByteArg(flags));
    BlockParts(arity, head, tail);
    FlagsHead(arity, path, flags);
    PackagedAfter(OpBytes(op), EncodePath(path) + [Low(flags)] + EncodeTail(tail));
    FollowsOne(arity, t, op, Block(head, tail));
  }

  lemma TermOperand(arity: Path -> nat, t: Term)
    ensures EncodeOperand(TermArg(t)) == Encode(t) && KindOf(TermArg(t)) == KTerm
    ensures CanonOperand(TermArg(t)) == TermArg(Canon(t)) && LegalOperand(arity, TermArg(t)) == Legal(arity, t)
  {
  }

  lemma PathOperand(arity: Path -> nat, p: Path)
    ensures EncodeOperand(PathArg(p)) == EncodePath(p) && KindOf(PathArg(p)) == KPath
    ensures CanonOperand(PathArg(p)) == PathArg(p) && LegalOperand(arity, PathArg(p)) == PathOk(p)
  {
  }

  predicate NotName(op: Opcode) {
    op.Plain? ==> !NameStart(op.code) && op.code != 0x5b
  }

  lemma FollowsTwoTerms(arity: Path -> nat, t: Term, op: Opcode, a: Term, b: Term)
    requires NotName(op) && Signature(op) == Some([KTerm, KTerm])
    requires Encode(t) == OpBytes(op) + Encode(a) + Encode(b) && Legal(arity, a) && Legal(arity, b)
    requires Build(op, [TermArg(Canon(a)), TermArg(Canon(b))]) == Some(Canon(t))
    ensures Follows(arity, t, op, [TermArg(a), TermArg(b)])
  {
    hide Encode, Canon, Legal, Build, Signature, OpBytes, Follows, EncodeOperand, KindOf, CanonOperand, LegalOperand;
    TermOperand(arity, a);
    TermOperand(arity, b);
    FollowsTwo(arity, t, op, TermArg(a), TermArg(b));
  }

  lemma FollowsThreeTerms(arity: Path -> nat, t: Term, op: Opcode, a: Term, b: Term, c: Term)
    requires NotName(op) && Signature(op) == Some([KTerm, KTerm, KTerm])
    requires Encode(t) == OpBytes(op) + Encode(a) + Encode(b) + Encode(c)
    requires Legal(arity, a) && Legal(arity, b) && Legal(arity, c)
    requires Build(op, [TermArg(Canon(a)), TermArg(Canon(b)), TermArg(Canon(c))]) == Some(Canon(t))
    ensures Follows(arity, t, op, [TermArg(a), TermArg(b), TermArg(c)])
  {
    hide Encode, Canon, Legal, Build, Signature, OpBytes, Follows, EncodeOperand, KindOf, CanonOperand, LegalOperand;
    TermOperand(arity, a);
    TermOperand(arity, b);
    TermOperand(arity, c);
    FollowsThree(arity, t, op, TermArg(a), TermArg(b), TermArg(c));
  }

  lemma FollowsTermsPath(arity: Path -> nat, t: Term, op: Opcode, a: Term, b: Term, p: Path)
    requires NotName(op) && Signature(op) == Some([KTerm, KTerm, KPath])
    requires Encode(t) == OpBytes(op) + Encode(a) + Encode(b) + EncodePath(p)
    requires Legal(arity, a) && Legal(arity, b) && PathOk(p)
    requires Build(op, [TermArg(Canon(a)), TermArg(Canon(b)), PathArg(p)]) == Some(Canon(t))
    ensures Follows(arity, t, op, [TermArg(a), TermArg(b), PathArg(p)])
  {
    hide Encode, Canon, Legal, Build, Signature, OpBytes, Follows, EncodeOperand, KindOf, CanonOperand, LegalOperand,
         PathOk, EncodePath;
    TermOperand(arity, a);
    TermOperand(arity, b);
    PathOperand(arity, p);
    FollowsThree(arity, t, op, TermArg(a), TermArg(b), PathArg(p));
  }

  lemma FollowsTermBlock(arity: Path -> nat, t: Term, op: Opcode, p: Term, ts: seq<Term>)
    requires NotName(op) && Signature(op) == Some([KBlock([KTerm], TermList)])
    requires Encode(t) == Packaged(OpBytes(op), Encode(p) + EncodeAll(ts))
    requires Legal(arity, p) && LegalAll(arity, ts) && Fits(|Encode(p)| + |EncodeAll(ts)|)
    requires Build(op, [Block([TermArg(Canon(p))], Terms(CanonAll(ts)))]) == Some(Canon(t))
    ensures Follows(arity, t, op, [Block([TermArg(p)], Terms(ts))])
  {
    hide Encode, EncodeAll, Canon, CanonAll, Legal, LegalAll, Build, Signature, OpBytes, Follows, EncodeOperand, KindOf,
         CanonOperand, LegalOperand, Packaged, Fits;
    TermOperand(arity, p);
    FollowsBlock(arity, t, op, TermArg(p), Terms(ts));
  }

  // One constructor at a time.

  lemma FollowsLeaf(arity: Path -> nat, t: Term)
    requires Legal(arity, t) && (t.Zero? || t.One? || t.Ones? || t.Arg? || t.Local?)
    ensures Follows(arity, t, OpOf(t), Operands(t))
  {
    hide EncodePath, PathOk, Fits, Packaged, EncodeUsize, TemplateData, EisaValue, CanonNumber, BinaryCode;
    match t
    case Zero => FollowsNone(arity, t, 0x00);
    case One => FollowsNone(arity, t, 0x01);
    case Ones => FollowsNone(arity, t, 0xff);
    case Arg(n) => FollowsNone(arity, t, 0x68 + n);
    case Local(n) => FollowsNone(arity, t, 0x60 + n);
  }

  lemma FollowsConst(arity: Path -> nat, t: Term)
    requires Legal(arity, t) && (t.ByteConst? || t.WordConst? || t.DWordConst? || t.QWordConst? || t.Str?)
    ensures Follows(arity, t, OpOf(t), Operands(t))
  {
    assert t.ByteConst? ==> ToLittleEndian(t.n, 1) == [Low(t.n)];
    FollowsOne(arity, t, OpOf(t), Operands(t)[0]);
  }

  lemma FollowsNameDef(arity: Path -> nat, path: Path, value: Term)
    requires Legal(arity, NameDef(path, value))
    ensures Follows(arity, NameDef(path, value), Plain(0x08), [PathArg(path), TermArg(value)])
  {
    FollowsTwo(arity, NameDef(path, value), Plain(0x08), PathArg(path), TermArg(value));
  }

  lemma FollowsReturn(arity: Path -> nat, value: Term)
    requires Legal(arity, Return(value))
    ensures Follows(arity, Return(value), Plain(0xa4), [TermArg(value)])
  {
    FollowsOne(arity, Return(value), Plain(0xa4), TermArg(value));
  }

  lemma EqualIs(arity: Path -> nat, l: Term, r: Term)
    ensures Encode(Equal(l, r)) == [0x93] + Encode(l) + Encode(r)
    ensures Legal(arity, Equal(l, r)) <==> Legal(arity, l) && Legal(arity, r)
    ensures Canon(Equal(l, r)) == Equal(Canon(l), Canon(r))
  {
    hide BinaryCode, PathOk, EncodePath, Fits, Packaged, EncodeUsize, TemplateData, EisaValue, CanonNumber;
  }

  lemma FollowsEqual(arity: Path -> nat, l: Term, r: Term)
    requires Legal(arity, Equal(l, r))
    ensures Follows(arity, Equal(l, r), Plain(0x93), [TermArg(l), TermArg(r)])
  {
    hide Encode, Canon, Legal, Follows;
    EqualIs(arity, l, r);
    FollowsTwoTerms(arity, Equal(l, r), Plain(0x93), l, r);
  }

  lemma LessThanIs(arity: Path -> nat, l: Term, r: Term)
    ensures Encode(LessThan(l, r)) == [0x95] + Encode(l) + Encode(r)
    ensures Legal(arity, LessThan(l, r)) <==> Legal(arity, l) && Legal(arity, r)
    ensures Canon(LessThan(l, r)) == LessThan(Canon(l), Canon(r))
  {
    hide BinaryCode, PathOk, EncodePath, Fits, Packaged, EncodeUsize, TemplateData, EisaValue, CanonNumber;
  }

  lemma FollowsLessThan(arity: Path -> nat, l: Term, r: Term)
    requires Legal(arity, LessThan(l, r))
    ensures Follows(arity, LessThan(l, r), Plain(0x95), [TermArg(l), TermArg(r)])
  {
    hide Encode, Canon, Legal, Follows;
    LessThanIs(arity, l, r);
    FollowsTwoTerms(arity, LessThan(l, r), Plain(0x95), l, r);
  }

  lemma StoreIs(arity: Path -> nat, target: Term, value: Term)
    ensures Encode(Store(target, value)) == [0x70] + Encode(value) + Encode(target)
    ensures Legal(arity, Store(target, value)) <==> Legal(arity, target) && Legal(arity, value)
    ensures Canon(Store(target, value)) == Store(Canon(target), Canon(value))
  {
    hide BinaryCode, PathOk, EncodePath, Fits, Packaged, EncodeUsize, TemplateData, EisaValue, CanonNumber;
  }

  lemma FollowsStore(arity: Path -> nat, target: Term, value: Term)
    requires Legal(arity, Store(target, value))
    ensures Follows(arity, Store(target, value), Plain(0x70), [TermArg(value), TermArg(target)])
  {
    hide Encode, Canon, Legal, Follows;
    StoreIs(arity, target, value);
    FollowsTwoTerms(arity, Store(target, value), Plain(0x70), value, target);
  }

  lemma NotifyIs(arity: Path -> nat, o: Term, value: Term)
    ensures Encode(Notify(o, value)) == [0x86] + Encode(o) + Encode(value)
    ensures Legal(arity, Notify(o, value)) <==> Legal(arity, o) && Legal(arity, value)
    ensures Canon(Notify(o, value)) == Notify(Canon(o), Canon(value))
  {
    hide BinaryCode, PathOk, EncodePath, Fits, Packaged, EncodeUsize, TemplateData, EisaValue, CanonNumber;
  }

  lemma FollowsNotify(arity: Path -> nat, o: Term, value: Term)
    requires Legal(arity, Notify(o, value))
    ensures Follows(arity, Notify(o, value), Plain(0x86), [TermArg(o), TermArg(value)])
  {
    hide Encode, Canon, Legal, Follows;
    NotifyIs(arity, o, value);
    FollowsTwoTerms(arity, Notify(o, value), Plain(0x86), o, value);
  }

  lemma BinaryEncodes(arity: Path -> nat, op: BinaryOp, target: Term, a: Term, b: Term)
    ensures Encode(Binary(op, target, a, b)) == [BinaryCode(op)] + Encode(a) + Encode(b) + Encode(target)
  {
    hide Legal, Canon, LegalAll, EncodeAll, CanonAll, BinaryCode, PathOk, EncodePath, Fits, Packaged,
         EncodeUsize, TemplateData, EisaValue, CanonNumber, EncodeFields, FieldOk, EisaOk, Flag;
  }

  lemma BinaryLegal(arity: Path -> nat, op: BinaryOp, target: Term, a: Term, b: Term)
    ensures Legal(arity, Binary(op, target, a, b)) <==> Legal(arity, target) && Legal(arity, a) && Legal(arity, b)
  {
    hide Encode, Canon, LegalAll, EncodeAll, CanonAll, BinaryCode, PathOk, EncodePath, Fits, Packaged,
         EncodeUsize, TemplateData, EisaValue, CanonNumber, EncodeFields, FieldOk, EisaOk, Flag;
  }

  lemma BinaryCanon(arity: Path -> nat, op: BinaryOp, target: Term, a: Term, b: Term)
    ensures Canon(Binary(op, target, a, b)) == Binary(op, Canon(target), Canon(a), Canon(b))
  {
    hide Encode, Legal, LegalAll, EncodeAll, CanonAll, BinaryCode, PathOk, EncodePath, Fits, Packaged,
         EncodeUsize, TemplateData, EisaValue, CanonNumber, EncodeFields, FieldOk, EisaOk, Flag;
  }

  lemma BinaryIs(arity: Path -> nat, op: BinaryOp, target: Term, a: Term, b: Term)
    ensures Encode(Binary(op, target, a, b)) == [BinaryCode(op)] + Encode(a) + Encode(b) + Encode(target)
    ensures Legal(arity, Binary(op, target, a, b)) <==> Legal(arity, target) && Legal(arity, a) && Legal(arity, b)
    ensures Canon(Binary(op, target, a, b)) == Binary(op, Canon(target), Canon(a), Canon(b))
  {
    hide *;
    BinaryEncodes(arity, op, target, a, b);
    BinaryLegal(arity, op, target, a, b);
    BinaryCanon(arity, op, target, a, b);
  }

  lemma FollowsBinary(arity: Path -> nat, op: BinaryOp, target: Term, a: Term, b: Term)
    requires Legal(arity, Binary(op, target, a, b))
    ensures Follows(arity, Binary(op, target, a, b), Plain(BinaryCode(op)), [TermArg(a), TermArg(b), TermArg(target)])
  {
    hide Encode, Canon, Legal, Follows, Build, Signature, NameStart, BinaryCode;
    BinaryIs(arity, op, target, a, b);
    BuildBinary(op, Canon(target), Canon(a), Canon(b));
    FollowsThreeTerms(arity, Binary(op, target, a, b), Plain(BinaryCode(op)), a, b, target);
  }

  lemma CreateFieldEncodes(arity: Path -> nat, wide: bool, buffer: Term, offset: Term, path: Path)
    ensures Encode(CreateField(wide, buffer, offset, path)) ==
            [if wide then 0x8f else 0x8a] + Encode(buffer) + Encode(offset) + EncodePath(path)
  {
    hide Legal, Canon, LegalAll, EncodeAll, CanonAll, BinaryCode, PathOk, EncodePath, Fits, Packaged,
         EncodeUsize, TemplateData, EisaValue, CanonNumber, EncodeFields, FieldOk, EisaOk, Flag;
  }

  lemma CreateFieldLegal(arity: Path -> nat, wide: bool, buffer: Term, offset: Term, path: Path)
    ensures Legal(arity, CreateField(wide, buffer, offset, path)) <==>
            Legal(arity, buffer) && Legal(arity, offset) && PathOk(path)
  {
    hide Encode, Canon, LegalAll, EncodeAll, CanonAll, BinaryCode, PathOk, EncodePath, Fits, Packaged,
         EncodeUsize, TemplateData, EisaValue, CanonNumber, EncodeFields, FieldOk, EisaOk, Flag;
  }

  lemma CreateFieldCanon(arity: Path -> nat, wide: bool, buffer: Term, offset: Term, path: Path)
    ensures Canon(CreateField(wide, buffer, offset, path)) == CreateField(wide, Canon(buffer), Canon(offset), path)
  {
    hide Encode, Legal, LegalAll, EncodeAll, CanonAll, BinaryCode, PathOk, EncodePath, Fits, Packaged,
         EncodeUsize, TemplateData, EisaValue, CanonNumber, EncodeFields, FieldOk, EisaOk, Flag;
  }

  lemma CreateFieldIs(arity: Path -> nat, wide: bool, buffer: Term, offset: Term, path: Path)
    ensures Encode(CreateField(wide, buffer, offset, path)) ==
            [if wide then 0x8f else 0x8a] + Encode(buffer) + Encode(offset) + EncodePath(path)
    ensures Legal(arity, CreateField(wide, buffer, offset, path)) <==>
            Legal(arity, buffer) && Legal(arity, offset) && PathOk(path)
    ensures Canon(CreateField(wide, buffer, offset, path)) == CreateField(wide, Canon(buffer), Canon(offset), path)
  {
    hide *;
    CreateFieldEncodes(arity, wide, buffer, offset, path);
    CreateFieldLegal(arity, wide, buffer, offset, path);
    CreateFieldCanon(arity, wide, buffer, offset, path);
  }

  lemma FollowsCreateField(arity: Path -> nat, wide: bool, buffer: Term, offset: Term, path: Path)
    requires Legal(arity, CreateField(wide, buffer, offset, path))
    ensures var t := CreateField(wide, buffer, offset, path); Follows(arity, t, OpOf(t), Operands(t))
  {
    hide Encode, Canon, Legal, Follows, PathOk, EncodePath;
    CreateFieldIs(arity, wide, buffer, offset, path);
    var t := CreateField(wide, buffer, offset, path);
    FollowsTermsPath(arity, t, OpOf(t), buffer, offset, path);
  }

  lemma FollowsOpRegion(arity: Path -> nat, path: Path, space: nat, offset: nat, length: nat)
    requires Legal(arity, OpRegion(path, space, offset, length))
    ensures var t := OpRegion(path, space, offset, length); Follows(arity, t, OpOf(t), Operands(t))
  {
    var t := OpRegion(path, space, offset, length);
    assert ToLittleEndian(space, 1) == [Low(space)];
    FollowsFour(arity, t, Ext(0x80), PathArg(path), ByteArg(space), TermArg(Usize(offset)), TermArg(Usize(length)));
  }

  lemma FollowsLock(arity: Path -> nat, t: Term)
    requires Legal(arity, t) && (t.Mutex? || t.Acquire? || t.Release?)
    ensures Follows(arity, t, OpOf(t), Operands(t))
  {
    assert t.Mutex? ==> ToLittleEndian(t.level, 1) == [Low(t.level)];
    match t
    case Mutex(path, level) => FollowsTwo(arity, t, Ext(0x01), PathArg(path), ByteArg(level));
    case Acquire(path, timeout) => FollowsTwo(arity, t, Ext(0x23), PathArg(path), WordArg(timeout));
    case Release(path) => FollowsOne(arity, t, Ext(0x27), PathArg(path));
  }

  lemma FollowsPackage(arity: Path -> nat, children: seq<Term>)
    requires Legal(arity, Package(children))
    ensures Follows(arity, Package(children), Plain(0x12), [Block([ByteArg(|children|)], Terms(children))])
  {
    assert ToLittleEndian(|children|, 1) == [Low(|children|)];
    FollowsBlock(arity, Package(children), Plain(0x12), ByteArg(|children|), Terms(children));
  }

  lemma FollowsBuffer(arity: Path -> nat, data: seq<byte>)
    requires Legal(arity, Buffer(data))
    ensures Follows(arity, Buffer(data), Plain(0x11), [Block([TermArg(Usize(|data|))], Raw(data))])
  {
    FollowsBlock(arity, Buffer(data), Plain(0x11), TermArg(Usize(|data|)), Raw(data));
  }

  lemma FollowsDevice(arity: Path -> nat, path: Path, children: seq<Term>)
    requires Legal(arity, Device(path, children))
    ensures Follows(arity, Device(path, children), Ext(0x82), [Block([PathArg(path)], Terms(children))])
  {
    FollowsBlock(arity, Device(path, children), Ext(0x82), PathArg(path), Terms(children));
  }

  lemma FollowsScope(arity: Path -> nat, path: Path, children: seq<Term>)
    requires Legal(arity, Scope(path, children))
    ensures Follows(arity, Scope(path, children), Plain(0x10), [Block([PathArg(path)], Terms(children))])
  {
    FollowsBlock(arity, Scope(path, children), Plain(0x10), PathArg(path), Terms(children));
  }

  lemma IfEncodes(arity: Path -> nat, p: Term, children: seq<Term>)
    ensures Encode(If(p, children)) == Packaged([0xa0], Encode(p) + EncodeAll(children))
  {
    hide Legal, Canon, LegalAll, EncodeAll, CanonAll, BinaryCode, PathOk, EncodePath, Fits, Packaged,
         EncodeUsize, TemplateData, EisaValue, CanonNumber, EncodeFields, FieldOk, EisaOk, Flag;
  }

  lemma IfLegal(arity: Path -> nat, p: Term, children: seq<Term>)
    ensures Legal(arity, If(p, children)) <==>
            Legal(arity, p) && LegalAll(arity, children) && Fits(|Encode(p)| + |EncodeAll(children)|)
  {
    hide Encode, Canon, LegalAll, EncodeAll, CanonAll, BinaryCode, PathOk, EncodePath, Fits, Packaged,
         EncodeUsize, TemplateData, EisaValue, CanonNumber, EncodeFields, FieldOk, EisaOk, Flag;
  }

  lemma IfCanon(arity: Path -> nat, p: Term, children: seq<Term>)
    ensures Canon(If(p, children)) == If(Canon(p), CanonAll(children))
  {
    hide Encode, Legal, LegalAll, EncodeAll, CanonAll, BinaryCode, PathOk, EncodePath, Fits, Packaged,
         EncodeUsize, TemplateData, EisaValue, CanonNumber, EncodeFields, FieldOk, EisaOk, Flag;
  }

  lemma IfIs(arity: Path -> nat, p: Term, children: seq<Term>)
    ensures Encode(If(p, children)) == Packaged([0xa0], Encode(p) + EncodeAll(children))
    ensures Legal(arity, If(p, children)) <==>
            Legal(arity, p) && LegalAll(arity, children) && Fits(|Encode(p)| + |EncodeAll(children)|)
    ensures Canon(If(p, children)) == If(Canon(p), CanonAll(children))
  {
    hide *;
    IfEncodes(arity, p, children);
    IfLegal(arity, p, children);
    IfCanon(arity, p, children);
  }

  lemma FollowsIf(arity: Path -> nat, p: Term, children: seq<Term>)
    requires Legal(arity, If(p, children))
    ensures Follows(arity, If(p, children), Plain(0xa0), [Block([TermArg(p)], Terms(children))])
  {
    hide Encode, EncodeAll, Canon, CanonAll, Legal, LegalAll, Follows, Packaged, Fits;
    IfIs(arity, p, children);
    FollowsTermBlock(arity, If(p, children), Plain(0xa0), p, children);
  }

  lemma WhileEncodes(arity: Path -> nat, p: Term, children: seq<Term>)
    ensures Encode(While(p, children)) == Packaged([0xa2], Encode(p) + EncodeAll(children))
  {
    hide Legal, Canon, LegalAll, EncodeAll, CanonAll, BinaryCode, PathOk, EncodePath, Fits, Packaged,
         EncodeUsize, TemplateData, EisaValue, CanonNumber, EncodeFields, FieldOk, EisaOk, Flag;
  }

  lemma WhileLegal(arity: Path -> nat, p: Term, children: seq<Term>)
    ensures Legal(arity, While(p, children)) <==>
            Legal(arity, p) && LegalAll(arity, children) && Fits(|Encode(p)| + |EncodeAll(children)|)
  {
    hide Encode, Canon, LegalAll, EncodeAll, CanonAll, BinaryCode, PathOk, EncodePath, Fits, Packaged,
         EncodeUsize, TemplateData, EisaValue, CanonNumber, EncodeFields, FieldOk, EisaOk, Flag;
  }

  lemma WhileCanon(arity: Path -> nat, p: Term, children: seq<Term>)
    ensures Canon(While(p, children)) == While(Canon(p), CanonAll(children))
  {
    hide Encode, Legal, LegalAll, EncodeAll, CanonAll, BinaryCode, PathOk, EncodePath, Fits, Packaged,
         EncodeUsize, TemplateData, EisaValue, CanonNumber, EncodeFields, FieldOk, EisaOk, Flag;
  }

  lemma WhileIs(arity: Path -> nat, p: Term, children: seq<Term>)
    ensures Encode(While(p, children)) == Packaged([0xa2], Encode(p) + EncodeAll(children))
    ensures Legal(arity, While(p, children)) <==>
            Legal(arity, p) && LegalAll(arity, children) && Fits(|Encode(p)| + |EncodeAll(children)|)
    ensures Canon(While(p, children)) == While(Canon(p), CanonAll(children))
  {
    hide *;
    WhileEncodes(arity, p, children);
    WhileLegal(arity, p, children);
    WhileCanon(arity, p, children);
  }

  lemma FollowsWhile(arity: Path -> nat, p: Term, children: seq<Term>)
    requires Legal(arity, While(p, children))
    ensures Follows(arity, While(p, children), Plain(0xa2), [Block([TermArg(p)], Terms(children))])
  {
    hide Encode, EncodeAll, Canon, CanonAll, Legal, LegalAll, Follows, Packaged, Fits;
    WhileIs(arity, p, children);
    FollowsTermBlock(arity, While(p, children), Plain(0xa2), p, children);
  }

  lemma BuildMethod(path: Path, n: nat, serialized: bool, ts: seq<Term>)
    requires n <= 7
    ensures n % 8 + Flag(serialized, 8) < 0x100
    ensures Build(Plain(0x14), [Block([PathArg(path), ByteArg(n % 8 + Flag(serialized, 8))], Terms(ts))]) ==
            Some(Method(path, n, serialized, ts))
  {
  }

  lemma BuildField(path: Path, access: nat, update: nat, fields: seq<FieldEntry>)
    requires access <= 5 && update <= 2
    ensures access + update * 32 < 0x100
    ensures Build(Ext(0x81), [Block([PathArg(path), ByteArg(access + update * 32)], Fields(fields))]) ==
            Some(Field(path, access, update, fields))
  {
  }

  lemma BuildBinary(op: BinaryOp, target: Term, a: Term, b: Term)
    ensures Signature(Plain(BinaryCode(op))) == Some([KTerm, KTerm, KTerm])
    ensures !NameStart(BinaryCode(op)) && BinaryCode(op) != 0x5b
    ensures Build(Plain(BinaryCode(op)), [TermArg(a), TermArg(b), TermArg(target)]) == Some(Binary(op, target, a, b))
  {
    assert OpOfCode(BinaryCode(op)) == Some(op);
  }

  lemma MethodEncodes(arity: Path -> nat, path: Path, n: nat, serialized: bool, ts: seq<Term>)
    ensures var t := Method(path, n, serialized, ts);
            Encode(t) == Packaged([0x14], EncodePath(path) + [Low(n % 8 + Flag(serialized, 8))] + EncodeAll(ts))
  {
    hide Legal, Canon, LegalAll, EncodeAll, CanonAll, BinaryCode, PathOk, EncodePath, Fits, Packaged,
         EncodeUsize, TemplateData, EisaValue, CanonNumber, EncodeFields, FieldOk, EisaOk, Flag;
  }

  lemma MethodLegal(arity: Path -> nat, path: Path, n: nat, serialized: bool, ts: seq<Term>)
    ensures Legal(arity, Method(path, n, serialized, ts)) <==>
            PathOk(path) && n <= 7 && LegalAll(arity, ts) && Fits(|EncodePath(path)| + 1 + |EncodeAll(ts)|)
  {
    hide Encode, Canon, LegalAll, EncodeAll, CanonAll, BinaryCode, PathOk, EncodePath, Fits, Packaged,
         EncodeUsize, TemplateData, EisaValue, CanonNumber, EncodeFields, FieldOk, EisaOk, Flag;
  }

  lemma MethodCanon(arity: Path -> nat, path: Path, n: nat, serialized: bool, ts: seq<Term>)
    ensures Canon(Method(path, n, serialized, ts)) == Method(path, n, serialized, CanonAll(ts))
  {
    hide Encode, Legal, LegalAll, EncodeAll, CanonAll, BinaryCode, PathOk, EncodePath, Fits, Packaged,
         EncodeUsize, TemplateData, EisaValue, CanonNumber, EncodeFields, FieldOk, EisaOk, Flag;
  }

  lemma MethodIs(arity: Path -> nat, path: Path, n: nat, serialized: bool, ts: seq<Term>)
    ensures var t := Method(path, n, serialized, ts);
            && Encode(t) == Packaged([0x14], EncodePath(path) + [Low(n % 8 + Flag(serialized, 8))] + EncodeAll(ts))
            && (Legal(arity, t) <==>
                PathOk(path) && n <= 7 && LegalAll(arity, ts) && Fits(|EncodePath(path)| + 1 + |EncodeAll(ts)|))
            && Canon(t) == Method(path, n, serialized, CanonAll(ts))
  {
    hide *;
    MethodEncodes(arity, path, n, serialized, ts);
    MethodLegal(arity, path, n, serialized, ts);
    MethodCanon(arity, path, n, serialized, ts);
  }

  lemma FollowsMethod(arity: Path -> nat, path: Path, n: nat, serialized: bool, children: seq<Term>)
    requires Legal(arity, Method(path, n, serialized, children))
    ensures var t := Method(path, n, serialized, children); Follows(arity, t, OpOf(t), Operands(t))
  {
    hide Build, PathOk, EncodePath, Fits, Packaged, Encode, Canon, Legal, LegalAll, EncodeAll, CanonAll, Follows, Flag;
    MethodIs(arity, path, n, serialized, children);
    var t := Method(path, n, serialized, children);
    BuildMethod(path, n, serialized, CanonAll(children));
    FollowsFlags(arity, t, Plain(0x14), path, n % 8 + Flag(serialized, 8), Terms(children));
  }

  lemma FollowsField(arity: Path -> nat, path: Path, access: nat, update: nat, fields: seq<FieldEntry>)
    requires Legal(arity, Field(path, access, update, fields))
    ensures var t := Field(path, access, update, fields); Follows(arity, t, OpOf(t), Operands(t))
  {
    hide Build, PathOk, EncodePath, Fits, PkgLength, EncodeFields, FieldOk;
    var t := Field(path, access, update, fields);
    BuildField(path, access, update, fields);
    FollowsFlags(arity, t, Ext(0x81), path, access + update * 32, Fields(fields));
  }

  lemma FollowsAny(arity: Path -> nat, t: Term)
    requires Legal(arity, t) && !IsCall(t) && !IsAlias(t)
    ensures Follows(arity, t, OpOf(t), Operands(t))
  {
    hide Follows, Legal;
    match t
    case Package(children) => FollowsPackage(arity, children);
    case Buffer(data) => FollowsBuffer(arity, data);
    case Device(path, children) => FollowsDevice(arity, path, children);
    case Scope(path, children) => FollowsScope(arity, path, children);
    case If(p, children) => FollowsIf(arity, p, children);
    case While(p, children) => FollowsWhile(arity, p, children);
    case Method(path, n, serialized, children) => FollowsMethod(arity, path, n, serialized, children);
    case Field(path, access, update, fields) => FollowsField(arity, path, access, update, fields);
    case _ => FollowsFlat(arity, t);
  }

  lemma FollowsFlat(arity: Path -> nat, t: Term)
    requires Legal(arity, t) && !IsCall(t) && !IsAlias(t)
    requires !t.Package? && !t.Buffer? && !t.Device? && !t.Scope? && !t.If? && !t.While? && !t.Method? && !t.Field?
    ensures Follows(arity, t, OpOf(t), Operands(t))
  {
    hide Follows, Legal;
    match t
    case NameDef(path, value) => FollowsNameDef(arity, path, value);
    case Return(value) => FollowsReturn(arity, value);
    case Equal(l, r) => FollowsEqual(arity, l, r);
    case LessThan(l, r) => FollowsLessThan(arity, l, r);
    case Store(target, value) => FollowsStore(arity, target, value);
    case Notify(o, value) => FollowsNotify(arity, o, value);
    case Binary(op, target, a, b) => FollowsBinary(arity, op, target, a, b);
    case CreateField(wide, buffer, offset, path) => FollowsCreateField(arity, wide, buffer, offset, path);
    case OpRegion(path, space, offset, length) => FollowsOpRegion(arity, path, space, offset, length);
    case _ => FollowsPlain(arity, t);
  }

  lemma FollowsPlain(arity: Path -> nat, t: Term)
    requires Legal(arity, t)
    requires t.Mutex? || t.Acquire? || t.Release? || t.ByteConst? || t.WordConst? || t.DWordConst? || t.QWordConst?
          || t.Str? || t.Zero? || t.One? || t.Ones? || t.Arg? || t.Local?
    ensures Follows(arity, t, OpOf(t), Operands(t))
  {
    hide Follows, Legal;
    if t.Mutex? || t.Acquire? || t.Release? {
      FollowsLock(arity, t);
    } else if t.Zero? || t.One? || t.Ones? || t.Arg? || t.Local? {
      FollowsLeaf(arity, t);
    } else {
      FollowsConst(arity, t);
    }
  }

  // Reading back numbers, names, texts and lengths.

  lemma {:induction false} LittleEndianRoundTrip(v: nat, n: nat)
    requires v < Span(n)
    ensures FromLittleEndian(ToLittleEndian(v, n)) == v
  {
    if n > 0 {
      LittleEndianRoundTrip(v / 256, n - 1);
      assert ToLittleEndian(v, n)[1..] == ToLittleEndian(v / 256, n - 1);
    }
  }

  lemma NumberRoundTrip(v: nat, k: nat, rest: seq<byte>)
    requires v < Span(k)
    ensures DecodeNumber(k, ToLittleEndian(v, k) + rest) == Some((v, rest))
  {
    hide ToLittleEndian, FromLittleEndian;
    LittleEndianRoundTrip(v, k);
    assert (ToLittleEndian(v, k) + rest)[..k] == ToLittleEndian(v, k);
    assert (ToLittleEndian(v, k) + rest)[k..] == rest;
  }

  lemma {:induction false} PartsRoundTrip(parts: seq<seq<byte>>, rest: seq<byte>)
    requires forall i :: 0 <= i < |parts| ==> |parts[i]| == 4
    ensures DecodeParts(|parts|, EncodeParts(parts) + rest) == Some((parts, rest))
  {
    if parts == [] {
      assert EncodeParts(parts) + rest == rest;
    } else {
      PartsRoundTrip(parts[1..], rest);
      var b := EncodeParts(parts) + rest;
      assert b[..4] == parts[0];
      assert b[4..] == EncodeParts(parts[1..]) + rest;
      assert [parts[0]] + parts[1..] == parts;
    }
  }

  /** The segments of a path, with their count where one is needed. */
  function EncodeSegments(parts: seq<seq<byte>>): seq<byte> {
    (if |parts| == 1 then [] else if |parts| == 2 then [0x2e] else [0x2f, Low(|parts|)]) + EncodeParts(parts)
  }

  lemma SegmentsRoundTrip(p: Path, rest: seq<byte>)
    requires PathOk(p)
    ensures DecodeSegments(p.root, EncodeSegments(p.parts) + rest) == Some((p, rest))
    ensures |EncodeSegments(p.parts)| >= 4
    ensures NameStart(EncodeSegments(p.parts)[0]) && EncodeSegments(p.parts)[0] != 0x5c
  {
    hide DecodeParts;
    var n, b := |p.parts|, EncodeSegments(p.parts) + rest;
    PartsRoundTrip(p.parts, rest);
    var head := if n == 1 then [] else if n == 2 then [0x2e] else [0x2f, Low(n)];
    assert b == head + (EncodeParts(p.parts) + rest);
    assert b[|head|..] == EncodeParts(p.parts) + rest;
    assert EncodeParts(p.parts) == p.parts[0] + EncodeParts(p.parts[1..]);
    assert SegmentOk(p.parts[0]);
  }

  lemma PathRoundTrip(p: Path, rest: seq<byte>)
    requires PathOk(p)
    ensures DecodePath(EncodePath(p) + rest) == Some((p, rest))
    ensures |EncodePath(p)| >= 4 && NameStart(EncodePath(p)[0])
  {
    hide DecodeSegments, EncodeParts;
    SegmentsRoundTrip(p, rest);
    var b := EncodePath(p) + rest;
    if p.root {
      assert EncodePath(p) == [0x5c] + EncodeSegments(p.parts);
      assert b[1..] == EncodeSegments(p.parts) + rest;
    } else {
      assert EncodePath(p) == EncodeSegments(p.parts);
    }
  }

  lemma {:induction false} TextRoundTrip(text: seq<byte>, rest: seq<byte>)
    requires 0 !in text
    ensures DecodeText(text + [0] + rest) == Some((text, rest))
  {
    var b := text + [0] + rest;
    if text == [] {
      assert b[1..] == rest;
    } else {
      TextRoundTrip(text[1..], rest);
      assert b[1..] == text[1..] + [0] + rest;
      assert [text[0]] + text[1..] == text;
    }
  }

  /** A length is read back whether or not it counts itself. */
  lemma PkgLengthRoundTrip(n: nat, includeSelf: bool, rest: seq<byte>)
    requires n + (if includeSelf then PkgLengthBytes(n) else 0) < PKG_LIMIT
    ensures DecodePkgLength(PkgLength(n, includeSelf) + rest) ==
            Some((n + if includeSelf then PkgLengthBytes(n) else 0, rest))
  {
    var k := PkgLengthBytes(n);
    var length := n + if includeSelf then k else 0;
    var p := PkgLength(n, includeSelf);
    var b := p + rest;
    assert b[k..] == rest && b[0] == p[0];
    LeadByte(n, includeSelf);
    if k > 1 {
      FollowBytes(length, k - 1);
      assert b[1..k] == p[1..] == ToLittleEndian(length / 16, k - 1);
    }
  }

  lemma LeadByte(n: nat, includeSelf: bool)
    requires n + (if includeSelf then PkgLengthBytes(n) else 0) < PKG_LIMIT
    ensures var k := PkgLengthBytes(n);
            var length := n + if includeSelf then k else 0;
            var p := PkgLength(n, includeSelf);
            && p[0] / 64 == k - 1 && (k == 1 ==> p[0] == length)
            && (k > 1 ==> p[0] % 16 == length % 16 && length < 16 * Span(k - 1))
  {
    var k := PkgLengthBytes(n);
    var length := n + if includeSelf then k else 0;
    LengthFits(n, k, length);
    if k > 1 {
      LeadParts(k - 1, length % 16);
      assert PkgLength(n, includeSelf)[0] == Low(64 * (k - 1) + length % 16);
    }
    hide Span, PkgLengthBytes;
  }

  lemma LengthFits(n: nat, k: nat, length: nat)
    requires k == PkgLengthBytes(n) && n <= length <= n + k && length < PKG_LIMIT
    ensures if k == 1 then length < 64 else length < 16 * Span(k - 1)
  {
    assert Span(1) == 256 && Span(2) == 65536 && Span(3) == 16777216;
  }

  lemma LeadParts(k: nat, r: nat)
    requires 1 <= k <= 3 && r < 16
    ensures Low(64 * k + r) / 64 == k && Low(64 * k + r) % 16 == r
  {
  }

  /** The bytes behind the lead byte are the length without its low four bits. */
  lemma FollowBytes(length: nat, k: nat)
    requires 1 <= k <= 3 && length < 16 * Span(k)
    ensures length / 16 < Span(k) && FromLittleEndian(ToLittleEndian(length / 16, k)) == length / 16
    ensures ToLittleEndian(length / 16, k) ==
            if k == 1 then [Low(length / 16)]
            else if k == 2 then [Low(length / 16), Low(length / 4096)]
            else [Low(length / 16), Low(length / 4096), Low(length / 1048576)]
  {
    LittleEndianRoundTrip(length / 16, k);
    var m0, m1, m2 := length / 16, length / 4096, length / 1048576;
    assert m0 / 256 == m1 && m1 / 256 == m2;
    assert ToLittleEndian(m2, 1) == [Low(m2)] && ToLittleEndian(m1, 1) == [Low(m1)] &&
           ToLittleEndian(m0, 1) == [Low(m0)];
    assert ToLittleEndian(m1, 2) == [Low(m1), Low(m2)] && ToLittleEndian(m0, 2) == [Low(m0), Low(m1)];
    assert ToLittleEndian(m0, 3) == [Low(m0)] + ToLittleEndian(m1, 2);
  }

  lemma FieldRoundTrip(f: FieldEntry, rest: seq<byte>)
    requires FieldOk(f)
    ensures DecodeField(EncodeField(f) + rest) == Some((f, rest))
    ensures |EncodeField(f)| >= 1
  {
    hide PkgLength, DecodePkgLength;
    var b, length := EncodeField(f) + rest, PkgLength(f.length, false);
    PkgLengthRoundTrip(f.length, false, rest);
    if f.Named? {
      assert SegmentOk(f.name);
      assert b[0] == f.name[0] && b[..4] == f.name;
      assert b[4..] == length + rest;
    } else {
      assert b[1..] == length + rest;
    }
  }

  lemma {:induction false} FieldsRoundTrip(fs: seq<FieldEntry>)
    requires forall i :: 0 <= i < |fs| ==> FieldOk(fs[i])
    ensures DecodeFields(EncodeFields(fs)) == Some(fs)
  {
    if fs != [] {
      hide DecodeField, EncodeField;
      FieldRoundTrip(fs[0], EncodeFields(fs[1..]));
      FieldsRoundTrip(fs[1..]);
      assert EncodeFields(fs)[..] == EncodeField(fs[0]) + EncodeFields(fs[1..]);
      assert [fs[0]] + fs[1..] == fs;
    }
  }

  // The round trip.

  lemma AliasSame(arity: Path -> nat, t: Term)
    requires Legal(arity, t) && IsAlias(t)
    ensures Encode(Canon(t)) == Encode(t) && Legal(arity, Canon(t))
    ensures Canon(Canon(t)) == Canon(t) && !IsAlias(Canon(t)) && !IsCall(Canon(t))
  {
    if t.EisaName? {
      EisaFits(t.name);
    }
  }

  lemma EisaFits(name: seq<byte>)
    ensures EisaValue(name) < 0x1_0000_0000
  {
  }

  lemma DecodeOpOk(arity: Path -> nat, t: Term, op: Opcode, os: seq<Operand>, b: seq<byte>, rest: seq<byte>)
    requires Signature(op) == Some(KindsOf(os)) && Build(op, CanonOperands(os)) == Some(Canon(t))
    requires DecodeOperands(arity, KindsOf(os), b) == Some((CanonOperands(os), rest))
    ensures DecodeOp(arity, op, b) == Some((Canon(t), rest))
  {
    hide Signature, Build, KindsOf, CanonOperands, Canon, DecodeOperands;
  }

  lemma DecodeTermOp(arity: Path -> nat, op: Opcode, b: seq<byte>)
    requires op.Plain? ==> !NameStart(op.code) && op.code != 0x5b
    ensures DecodeTerm(arity, OpBytes(op) + b) == DecodeOp(arity, op, b)
  {
    hide DecodeOp, DecodeCall;
    assert (OpBytes(op) + b)[|OpBytes(op)|..] == b;
  }

  lemma DecodeTermCall(arity: Path -> nat, p: Path, args: seq<Term>, b: seq<byte>, rest: seq<byte>)
    requires PathOk(p) && arity(p) == |args|
    requires DecodeMany(arity, |args|, b) == Some((args, rest))
    ensures DecodeTerm(arity, EncodePath(p) + b) == Some((if args == [] then Ref(p) else MethodCall(p, args), rest))
  {
    hide DecodeOp, DecodePath, DecodeMany, EncodePath, PathOk;
    PathRoundTrip(p, b);
  }

  lemma FollowsOp(arity: Path -> nat, t: Term, op: Opcode, os: seq<Operand>, rest: seq<byte>)
    requires Follows(arity, t, op, os)
    requires DecodeOperands(arity, KindsOf(os), EncodeOperands(os) + rest) == Some((CanonOperands(os), rest))
    ensures DecodeTerm(arity, Encode(t) + rest) == Some((Canon(t), rest))
  {
    hide Signature, Build, KindsOf, CanonOperands, Canon, DecodeOperands, EncodeOperands, Encode, DecodeTerm,
         LegalOperands, NameStart, OpBytes;
    assert Encode(t) + rest == OpBytes(op) + (EncodeOperands(os) + rest);
    DecodeTermOp(arity, op, EncodeOperands(os) + rest);
    DecodeOpOk(arity, t, op, os, EncodeOperands(os) + rest, rest);
  }

  lemma FollowsParts(arity: Path -> nat, t: Term, op: Opcode, os: seq<Operand>)
    requires Follows(arity, t, op, os)
    ensures LegalOperands(arity, os) && |EncodeOperands(os)| < |Encode(t)|
  {
    hide Encode, EncodeOperands, Signature, Build, LegalOperands, Canon, CanonOperands;
  }

  /** Decoding recovers every term from its bytes, whatever comes behind them. */
  lemma TermRoundTrip(arity: Path -> nat, t: Term, rest: seq<byte>)
    requires Legal(arity, t)
    ensures DecodeTerm(arity, Encode(t) + rest) == Some((Canon(t), rest))
    ensures |Encode(t)| >= 1
    decreases |Encode(t)|, 2, if IsAlias(t) then 1 else 0
  {
    hide *;
    if IsAlias(t) {
      AliasSame(arity, t);
      TermRoundTrip(arity, Canon(t), rest);
    } else if IsCall(t) {
      CallParts(arity, t);
      var args := Arguments(t);
      ManyRoundTrip(arity, args, rest);
      assert EncodePath(t.path) + EncodeAll(args) + rest == EncodePath(t.path) + (EncodeAll(args) + rest);
      DecodeTermCall(arity, t.path, CanonAll(args), EncodeAll(args) + rest, rest);
    } else {
      FollowsAny(arity, t);
      FollowsParts(arity, t, OpOf(t), Operands(t));
      OperandsRoundTrip(arity, Operands(t), rest);
      FollowsOp(arity, t, OpOf(t), Operands(t), rest);
    }
  }

  function Arguments(t: Term): seq<Term> {
    if t.MethodCall? then t.args else []
  }

  lemma CallParts(arity: Path -> nat, t: Term)
    requires Legal(arity, t) && IsCall(t)
    ensures t.Ref? || t.MethodCall?
    ensures var args := Arguments(t);
            && PathOk(t.path) && arity(t.path) == |args| && LegalAll(arity, args)
            && Encode(t) == EncodePath(t.path) + EncodeAll(args) && |EncodePath(t.path)| >= 4
            && Canon(t) == if CanonAll(args) == [] then Ref(t.path) else MethodCall(t.path, CanonAll(args))
  {
    PathRoundTrip(t.path, []);
  }

  lemma ConsTerms(arity: Path -> nat, ts: seq<Term>)
    requires LegalAll(arity, ts) && ts != []
    ensures EncodeAll(ts) == Encode(ts[0]) + EncodeAll(ts[1..]) && CanonAll(ts) == [Canon(ts[0])] + CanonAll(ts[1..])
    ensures Legal(arity, ts[0]) && LegalAll(arity, ts[1..])
  {
    hide Encode, Canon, Legal;
  }

  lemma DecodeManyCons(arity: Path -> nat, n: nat, b: seq<byte>, t: Term, rest1: seq<byte>, ts: seq<Term>,
                       rest: seq<byte>)
    requires DecodeTerm(arity, b) == Some((t, rest1)) && DecodeMany(arity, n, rest1) == Some((ts, rest))
    ensures DecodeMany(arity, n + 1, b) == Some(([t] + ts, rest))
  {
    hide DecodeTerm;
  }

  lemma NoTerms(arity: Path -> nat, b: seq<byte>)
    ensures EncodeAll([]) == [] && CanonAll([]) == []
    ensures DecodeMany(arity, 0, b) == Some(([], b)) && DecodeAll(arity, []) == Some([])
  {
  }

  lemma ManyRoundTrip(arity: Path -> nat, ts: seq<Term>, rest: seq<byte>)
    requires LegalAll(arity, ts)
    ensures DecodeMany(arity, |ts|, EncodeAll(ts) + rest) == Some((CanonAll(ts), rest))
    decreases |EncodeAll(ts)|, 3, |ts|
  {
    hide *;
    if ts == [] {
      NoTerms(arity, rest);
      assert [] + rest == rest;
    } else {
      ConsTerms(arity, ts);
      var more := EncodeAll(ts[1..]) + rest;
      TermRoundTrip(arity, ts[0], more);
      ManyRoundTrip(arity, ts[1..], rest);
      assert Encode(ts[0]) + EncodeAll(ts[1..]) + rest == Encode(ts[0]) + more;
      DecodeManyCons(arity, |ts| - 1, Encode(ts[0]) + more, Canon(ts[0]), more, CanonAll(ts[1..]), rest);
    }
  }

  lemma DecodeAllCons(arity: Path -> nat, b: seq<byte>, t: Term, rest: seq<byte>, ts: seq<Term>)
    requires b != [] && DecodeTerm(arity, b) == Some((t, rest)) && DecodeAll(arity, rest) == Some(ts)
    ensures DecodeAll(arity, b) == Some([t] + ts)
  {
    hide DecodeTerm;
  }

  lemma AllRoundTrip(arity: Path -> nat, ts: seq<Term>)
    requires LegalAll(arity, ts)
    ensures DecodeAll(arity, EncodeAll(ts)) == Some(CanonAll(ts))
    decreases |EncodeAll(ts)|, 3, |ts|
  {
    hide *;
    if ts == [] {
      NoTerms(arity, []);
    } else {
      ConsTerms(arity, ts);
      TermRoundTrip(arity, ts[0], EncodeAll(ts[1..]));
      AllRoundTrip(arity, ts[1..]);
      DecodeAllCons(arity, EncodeAll(ts), Canon(ts[0]), EncodeAll(ts[1..]), CanonAll(ts[1..]));
    }
  }

  lemma DecodeOperandsCons(arity: Path -> nat, k: Kind, ks: seq<Kind>, b: seq<byte>, o: Operand, rest1: seq<byte>,
                           os: seq<Operand>, rest: seq<byte>)
    requires DecodeOperand(arity, k, b) == Some((o, rest1)) && DecodeOperands(arity, ks, rest1) == Some((os, rest))
    ensures DecodeOperands(arity, [k] + ks, b) == Some(([o] + os, rest))
  {
    hide DecodeOperand;
    assert ([k] + ks)[1..] == ks;
  }

  lemma DecodeNoOperands(arity: Path -> nat, b: seq<byte>)
    ensures DecodeOperands(arity, [], b) == Some(([], b))
  {
  }

  lemma LegalParts(arity: Path -> nat, os: seq<Operand>)
    requires LegalOperands(arity, os) && os != []
    ensures LegalOperand(arity, os[0]) && LegalOperands(arity, os[1..])
  {
    hide LegalOperand;
  }

  lemma OperandsRoundTrip(arity: Path -> nat, os: seq<Operand>, rest: seq<byte>)
    requires LegalOperands(arity, os)
    ensures DecodeOperands(arity, KindsOf(os), EncodeOperands(os) + rest) == Some((CanonOperands(os), rest))
    decreases |EncodeOperands(os)|, 4, |os|
  {
    hide *;
    if os == [] {
      NoOps();
      DecodeNoOperands(arity, rest);
      assert [] + rest == rest;
    } else {
      LegalParts(arity, os);
      ConsOps(os[0], os[1..]);
      assert [os[0]] + os[1..] == os;
      var more := EncodeOperands(os[1..]) + rest;
      OperandRoundTrip(arity, os[0], more);
      OperandsRoundTrip(arity, os[1..], rest);
      assert EncodeOperand(os[0]) + EncodeOperands(os[1..]) + rest == EncodeOperand(os[0]) + more;
      DecodeOperandsCons(arity, KindOf(os[0]), KindsOf(os[1..]), EncodeOperand(os[0]) + more, CanonOperand(os[0]), more,
                         CanonOperands(os[1..]), rest);
    }
  }

  lemma OperandRoundTrip(arity: Path -> nat, o: Operand, rest: seq<byte>)
    requires LegalOperand(arity, o)
    ensures DecodeOperand(arity, KindOf(o), EncodeOperand(o) + rest) == Some((CanonOperand(o), rest))
    decreases |EncodeOperand(o)|, 3, 0
  {
    SpansOk();
    match o
    case PathArg(p) => PathRoundTrip(p, rest);
    case ByteArg(n) => NumberRoundTrip(n, 1, rest);
    case WordArg(n) => NumberRoundTrip(n, 2, rest);
    case DWordArg(n) => NumberRoundTrip(n, 4, rest);
    case QWordArg(n) => NumberRoundTrip(n, 8, rest);
    case TextArg(text) => TextRoundTrip(text, rest);
    case TermArg(t) => TermRoundTrip(arity, t, rest);
    case Block(head, tail) => BlockRoundTrip(arity, head, tail, rest);
  }

  lemma SpansOk()
    ensures Span(1) == 0x100 && Span(2) == 0x1_0000 && Span(4) == 0x1_0000_0000 && Span(8) == 0x1_0000_0000_0000_0000
  {
    assert Span(4) == 256 * 256 * Span(2);
    assert Span(6) == 256 * 256 * Span(4);
    assert Span(8) == 256 * 256 * Span(6);
  }

  lemma BlockRoundTrip(arity: Path -> nat, head: seq<Operand>, tail: Tail, rest: seq<byte>)
    requires LegalOperand(arity, Block(head, tail))
    ensures var o := Block(head, tail);
            DecodeOperand(arity, KindOf(o), EncodeOperand(o) + rest) == Some((CanonOperand(o), rest))
    decreases |EncodeOperand(Block(head, tail))|, 2, 0
  {
    BlockParts(arity, head, tail);
    var body := EncodeOperands(head) + EncodeTail(tail);
    OperandsRoundTrip(arity, head, EncodeTail(tail));
    match tail {
      case Terms(ts) => AllRoundTrip(arity, ts);
      case Raw(_) =>
      case Fields(fs) => FieldsRoundTrip(fs);
    }
    DecodeBlockOk(arity, head, tail);
    PackageRead(arity, KindsOf(head), TailKindOf(tail), body, rest, CanonOperand(Block(head, tail)));
  }

  lemma DecodeBlockOk(arity: Path -> nat, head: seq<Operand>, tail: Tail)
    requires DecodeOperands(arity, KindsOf(head), EncodeOperands(head) + EncodeTail(tail)) ==
             Some((CanonOperands(head), EncodeTail(tail)))
    requires tail.Terms? ==> DecodeAll(arity, EncodeAll(tail.terms)) == Some(CanonAll(tail.terms))
    requires tail.Fields? ==> DecodeFields(EncodeFields(tail.fields)) == Some(tail.fields)
    ensures DecodeBlock(arity, KindsOf(head), TailKindOf(tail), EncodeOperands(head) + EncodeTail(tail)) ==
            Some(Block(CanonOperands(head), CanonTail(tail)))
  {
    hide DecodeOperands, DecodeAll, DecodeFields, KindsOf, CanonOperands, EncodeOperands, EncodeAll, CanonAll,
         EncodeFields;
  }

  /** A package is read up to its length, and no further. */
  lemma PackageRead(arity: Path -> nat, head: seq<Kind>, tail: TailKind, body: seq<byte>, rest: seq<byte>, o: Operand)
    requires Fits(|body|) && DecodeBlock(arity, head, tail, body) == Some(o)
    ensures DecodeOperand(arity, KBlock(head, tail), Packaged([], body) + rest) == Some((o, rest))
  {
    hide DecodeBlock, DecodePkgLength, PkgLength;
    PkgLengthRoundTrip(|body|, true, body + rest);
    assert Packaged([], body) + rest == PkgLength(|body|, true) + (body + rest);
    assert (body + rest)[..|body|] == body && (body + rest)[|body|..] == rest;
  }

  /** Two terms have the same bytes only if a reader cannot tell them apart. */
  lemma EncodingUnambiguous(arity: Path -> nat, t: Term, u: Term)
    requires Legal(arity, t) && Legal(arity, u) && Encode(t) == Encode(u)
    ensures Canon(t) == Canon(u)
  {
    hide *;
    TermRoundTrip(arity, t, []);
    TermRoundTrip(arity, u, []);
  }

  lemma {:induction false} LittleEndianCutsOff(v: nat, n: nat)
    ensures FromLittleEndian(ToLittleEndian(v, n)) == v % Span(n)
  {
    if n > 0 {
      LittleEndianCutsOff(v / 256, n - 1);
      assert ToLittleEndian(v, n)[1..] == ToLittleEndian(v / 256, n - 1);
      ModSplit(v, Span(n - 1));
    }
  }

  lemma ModSplit(v: nat, m: nat)
    requires 0 < m
    ensures v % (256 * m) == v % 256 + 256 * (v / 256 % m)
  {
    var q, r := v / 256, v % 256;
    assert v == 256 * q + r && q == m * (q / m) + q % m;
    assert v == 256 * m * (q / m) + (256 * (q % m) + r) by {
      assert 256 * (m * (q / m)) == 256 * m * (q / m);
    }
    DivModUnique(v, 256 * m, q / m, 256 * (q % m) + r);
  }

  /** A length is read back exactly when it is below 2^28; beyond, its high bits are lost. */
  lemma PkgLengthExact(n: nat, includeSelf: bool, rest: seq<byte>)
    ensures var length := n + if includeSelf then PkgLengthBytes(n) else 0;
            DecodePkgLength(PkgLength(n, includeSelf) + rest) == Some((length, rest)) <==> length < PKG_LIMIT
  {
    var k := PkgLengthBytes(n);
    var length := n + if includeSelf then k else 0;
    if length < PKG_LIMIT {
      PkgLengthRoundTrip(n, includeSelf, rest);
    } else {
      var p := PkgLength(n, includeSelf);
      var b := p + rest;
      LeadParts(3, length % 16);
      FourBytes(length);
      assert b[1..4] == p[1..] && b[0] == p[0];
      LittleEndianCutsOff(length / 16, 3);
      assert Span(3) == 0x100_0000;
    }
  }

  lemma FourBytes(length: nat)
    ensures ToLittleEndian(length / 16, 3) == [Low(length / 16), Low(length / 4096), Low(length / 1048576)]
  {
    var m0, m1, m2 := length / 16, length / 4096, length / 1048576;
    assert m0 / 256 == m1 && m1 / 256 == m2;
    assert ToLittleEndian(m2, 1) == [Low(m2)];
    assert ToLittleEndian(m1, 2) == [Low(m1)] + ToLittleEndian(m2, 1);
    assert ToLittleEndian(m0, 3) == [Low(m0)] + ToLittleEndian(m1, 2);
  }
}
