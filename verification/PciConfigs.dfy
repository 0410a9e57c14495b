/** The configuration space of a PCI function: registers, writable bits and base address registers. */
module PciConfigs {
  import opened Wrappers

  const NUM_CONFIGURATION_REGISTERS: nat := 1024
  const NUM_BAR_REGS: nat := 6
  const BAR0_REG: nat := 4
  const ROM_BAR_REG: nat := 12
  const ALL_ONES: bv32 := 0xffff_ffff
  const BAR_IO_ADDR_MASK: bv32 := 0xffff_fffc
  const BAR_MEM_ADDR_MASK: bv32 := 0xffff_fff0
  const ROM_BAR_ADDR_MASK: bv32 := 0xffff_f800

  datatype RegionType = Memory32 | IoRegion | Memory64

  datatype PciBar = PciBar(addr: bv32, size: bv32, used: bool, kind: Option<RegionType>)

  datatype Config = Config(
    regs: seq<bv32>, wbits: seq<bv32>, bars: seq<PciBar>, romAddr: bv32, romSize: bv32, romUsed: bool,
    lastCap: Option<(nat, nat)>)

  predicate Shape(c: Config) {
    |c.regs| == NUM_CONFIGURATION_REGISTERS && |c.wbits| == NUM_CONFIGURATION_REGISTERS && |c.bars| == NUM_BAR_REGS
  }

  predicate IsBarReg(i: nat) {
    BAR0_REG <= i < BAR0_REG + NUM_BAR_REGS
  }

  // Bits.

  function Masked(v: bv32, m: bv32): bv32 {
    v & m
  }

  /** `r` outside `w`, and of `v` what is in `m`. */
  function Merged(r: bv32, w: bv32, v: bv32, m: bv32): bv32 {
    (r & !w) | (v & m)
  }

  function Wide(x: bv32): bv64 {
    x as bv64
  }

  lemma MaskedAll(v: bv32)
    ensures Masked(v, ALL_ONES) == v
  {
  }

  // Sizes and addresses.

  function Join(hi: bv32, lo: bv32): bv64 {
    ((hi as bv64) << 32) | (lo as bv64)
  }

  function Hi(x: bv64): bv32 {
    (x >> 32) as bv32
  }

  function Lo(x: bv64): bv32 {
    (x & 0xffff_ffff) as bv32
  }

  predicate PowerOfTwo(s: bv64) {
    s != 0 && s & (s - 1) == 0
  }

  /** The address bits that select an address within a region of this size, cleared. */
  function SizeBits32(size: bv32): bv32 {
    !(size - 1)
  }

  function SizeBits64(size: bv64): bv64 {
    !(size - 1)
  }

  function Encode32(size: bv32): Option<bv32> {
    if size > 0 then Some(SizeBits32(size)) else None
  }

  function Decode32(size: bv32): Option<bv32> {
    if size > 0 then Some(!size + 1) else None
  }

  function Encode64(size: bv64): Option<(bv32, bv32)> {
    if size > 0 then var e := SizeBits64(size); Some((Hi(e), Lo(e))) else None
  }

  function Decode64(hi: bv32, lo: bv32): Option<bv64> {
    var size := Join(hi, lo);
    if size > 0 then Some(!size + 1) else None
  }

  lemma JoinSplit(x: bv64)
    ensures Join(Hi(x), Lo(x)) == x
  {
  }

  lemma Complement64(s: bv64)
    requires s != 0
    ensures SizeBits64(s) != 0 && !SizeBits64(s) + 1 == s
  {
  }

  /** Decoding an encoded size gives the size back. */
  lemma SizeRoundTrip(s: bv32, t: bv64)
    requires s != 0 && t != 0
    ensures Decode32(Encode32(s).value) == Some(s)
    ensures Decode64(Encode64(t).value.0, Encode64(t).value.1) == Some(t)
  {
    hide Join, Hi, Lo;
    JoinSplit(SizeBits64(t));
    Complement64(t);
  }

  // Guest writes.

  /** `read_reg`. */
  function ReadReg(c: Config, i: nat): bv32 {
    if i < |c.regs| then c.regs[i] else ALL_ONES
  }

  /** What of `value` a write to register `i` can put there; all ones ask for the size of a BAR. */
  function WriteMask(c: Config, i: nat, value: bv32): bv32
    requires Shape(c) && i < NUM_CONFIGURATION_REGISTERS
  {
    if IsBarReg(i) && value == ALL_ONES then Masked(c.wbits[i], c.bars[i - BAR0_REG].size)
    else if i == ROM_BAR_REG && Masked(value, ROM_BAR_ADDR_MASK) == ROM_BAR_ADDR_MASK then Masked(c.wbits[i], c.romSize)
    else c.wbits[i]
  }

  function WriteReg(c: Config, i: nat, value: bv32): (c': Config)
    requires Shape(c) && i < NUM_CONFIGURATION_REGISTERS
    ensures Shape(c')
  {
    c.(regs := c.regs[i := Merged(c.regs[i], c.wbits[i], value, WriteMask(c, i, value))])
  }

  /** Overwrites the bits of `lane` in register `offset / 4` as far as they are in `writable`. */
  function WriteLane(c: Config, i: nat, lane: bv32, value: bv32, writable: bv32): (c': Config)
    requires Shape(c) && i < NUM_CONFIGURATION_REGISTERS
    ensures Shape(c')
  {
    c.(regs := c.regs[i := Merged(c.regs[i], Masked(lane, writable), value, writable)])
  }

  function WordLane(half: nat): bv32 {
    if half == 0 then 0x0000_ffff else 0xffff_0000
  }

  function WordAt(half: nat, value: bv32): bv32 {
    if half == 0 then value & 0xffff else (value & 0xffff) << 16
  }

  function ByteLane(k: nat): bv32 {
    if k == 0 then 0xff else if k == 1 then 0xff00 else if k == 2 then 0xff_0000 else 0xff00_0000
  }

  function ByteAt(k: nat, value: bv32): bv32 {
    if k == 0 then value & 0xff
    else if k == 1 then (value & 0xff) << 8
    else if k == 2 then (value & 0xff) << 16
    else (value & 0xff) << 24
  }

  /** `write_word`: an offset that is not a multiple of two, or out of range, is ignored. */
  function WriteWord(c: Config, offset: nat, value: bv32): (c': Config)
    requires Shape(c)
    ensures Shape(c')
  {
    if offset % 2 != 0 || offset / 4 >= NUM_CONFIGURATION_REGISTERS then c
    else WriteLane(c, offset / 4, WordLane(offset % 4), WordAt(offset % 4, value), c.wbits[offset / 4])
  }

  /** `write_byte_internal`. */
  function WriteByte(c: Config, offset: nat, value: bv32, masked: bool): (c': Config)
    requires Shape(c)
    ensures Shape(c')
  {
    if offset / 4 >= NUM_CONFIGURATION_REGISTERS then c
    else WriteLane(c, offset / 4, ByteLane(offset % 4), ByteAt(offset % 4, value),
                   if masked then c.wbits[offset / 4] else ALL_ONES)
  }

  /** A write of the guest: `length` bytes at `offset` within register `reg`. */
  datatype Access = Access(reg: nat, offset: nat, length: nat, value: bv32)

  /** `write_config_register`, without the message to the MSI-X table. */
  function WriteConfig(c: Config, a: Access): (c': Config)
    requires Shape(c) && a.reg < NUM_CONFIGURATION_REGISTERS
    ensures Shape(c')
  {
    if a.offset + a.length > 4 then c
    else if a.length == 1 then WriteByte(c, a.reg * 4 + a.offset, a.value, true)
    else if a.length == 2 then WriteWord(c, a.reg * 4 + a.offset, a.value)
    else if a.length == 4 then WriteReg(c, a.reg, a.value)
    else c
  }

  /** No bit of `r` outside `w` differs from `r'`. */
  predicate MaskedSame(w: bv32, r: bv32, r': bv32) {
    r' & !w == r & !w
  }

  /** Only writable bits of register `k` changed. */
  ghost predicate OnlyWritable(c: Config, c': Config, k: nat)
    requires Shape(c) && Shape(c') && k < NUM_CONFIGURATION_REGISTERS
  {
    && c' == c.(regs := c'.regs)
    && (forall i :: 0 <= i < NUM_CONFIGURATION_REGISTERS && i != k ==> c'.regs[i] == c.regs[i])
    && MaskedSame(c.wbits[k], c.regs[k], c'.regs[k])
  }

  lemma WriteRegMasked(c: Config, i: nat, value: bv32)
    requires Shape(c) && i < NUM_CONFIGURATION_REGISTERS
    ensures OnlyWritable(c, WriteReg(c, i, value), i)
  {
    hide Masked, Merged, MaskedSame;
    var r, w := c.regs[i], c.wbits[i];
    MergedSame(r, w, value, ALL_ONES);
    MergedSame(r, w, value, c.romSize);
    if IsBarReg(i) {
      MergedSame(r, w, value, c.bars[i - BAR0_REG].size);
    }
  }

  lemma MergedSame(r: bv32, w: bv32, v: bv32, x: bv32)
    ensures MaskedSame(w, r, Merged(r, w, v, w)) && MaskedSame(w, r, Merged(r, w, v, Masked(w, x)))
  {
  }

  lemma WriteLaneMasked(c: Config, i: nat, lane: bv32, value: bv32)
    requires Shape(c) && i < NUM_CONFIGURATION_REGISTERS
    ensures OnlyWritable(c, WriteLane(c, i, lane, value, c.wbits[i]), i)
  {
    hide Masked, Merged, MaskedSame;
    LaneFacts(c.regs[i], c.wbits[i], lane, value);
  }

  /** A guest write changes at most the writable bits of one register. */
  lemma GuestWriteMasked(c: Config, a: Access)
    requires Shape(c) && a.reg < NUM_CONFIGURATION_REGISTERS
    ensures OnlyWritable(c, WriteConfig(c, a), a.reg)
  {
    hide WriteReg, WriteLane, ByteLane, ByteAt, WordLane, WordAt;
    var k := a.reg * 4 + a.offset;
    assert a.offset < 4 ==> k / 4 == a.reg;
    WriteRegMasked(c, a.reg, a.value);
    WriteLaneMasked(c, a.reg, ByteLane(k % 4), ByteAt(k % 4, a.value));
    WriteLaneMasked(c, a.reg, WordLane(k % 4), WordAt(k % 4, a.value));
  }

  lemma LaneFacts(r: bv32, w: bv32, lane: bv32, v: bv32)
    ensures MaskedSame(w, r, Merged(r, Masked(lane, w), v, w))
  {
  }

  // Base addresses.

  /** Bar number of the expansion ROM. */
  const ROM_BAR_IDX: nat := 6

  /** `get_bar_addr`, and the address of the expansion ROM. */
  function BaseOf(c: Config, n: nat): bv64
    requires Shape(c) && n <= ROM_BAR_IDX
  {
    if n == ROM_BAR_IDX then Wide(Masked(c.romAddr, c.wbits[ROM_BAR_REG])) else
    var lo := Masked(c.bars[n].addr, c.wbits[BAR0_REG + n]);
    if c.bars[n].kind == Some(Memory64) && n + 1 < NUM_BAR_REGS then Join(c.bars[n + 1].addr, lo) else Wide(lo)
  }

  datatype Move = Move(bar: nat, oldBase: bv64, newBase: bv64, len: bv64, kind: RegionType)

  /** `detect_bar_reprogramming` for a write of four bytes. */
  function Detect(c: Config, i: nat, value: bv32): (r: (Config, Option<Move>))
    requires Shape(c) && i < NUM_CONFIGURATION_REGISTERS
    ensures Shape(r.0)
  {
    var mask := c.wbits[i];
    if IsBarReg(i) then
      var n := i - BAR0_REG;
      if value == ALL_ONES then (c, None)
      else if c.bars[n].kind.Some? then Detect32(c, n, value, mask)
      else if n > 0 then Detect64(c, n, value, mask)
      else (c, None)
    else if i == ROM_BAR_REG && Masked(value, mask) != Masked(c.romAddr, mask)
            && Masked(value, ROM_BAR_ADDR_MASK) != ROM_BAR_ADDR_MASK
    then
      (c.(romAddr := value),
       Some(Move(ROM_BAR_IDX, Wide(Masked(c.romAddr, mask)), Wide(Masked(value, mask)), Length32(c.romSize), Memory32)))
    else (c, None)
  }

  function Length32(size: bv32): bv64 {
    if Decode32(size).Some? then Wide(Decode32(size).value) else 0
  }

  function Length64(hi: bv32, lo: bv32): bv64 {
    if Decode64(hi, lo).Some? then Decode64(hi, lo).value else 0
  }

  /** The size of the region does not decode, which aborts the program. */
  predicate Aborts(m: Option<Move>) {
    m.Some? && m.value.len == 0
  }

  lemma LengthZero(hi: bv32, lo: bv32)
    ensures Length32(lo) == 0 <==> Decode32(lo).None?
    ensures Length64(hi, lo) == 0 <==> Decode64(hi, lo).None?
    ensures Decode32(lo).None? <==> lo == 0
    ensures Decode64(hi, lo).None? <==> Join(hi, lo) == 0
  {
    hide Join;
    WideZero(!lo + 1);
    ComplementZero(lo, Join(hi, lo));
  }

  /** When a move aborts, from the size it decodes. */
  lemma AbortsIf(m: Move, hi: bv32, lo: bv32)
    ensures m.len == Length32(lo) ==> (Aborts(Some(m)) <==> Decode32(lo).None?)
    ensures m.len == Length64(hi, lo) ==> (Aborts(Some(m)) <==> Decode64(hi, lo).None?)
  {
    hide Length32, Length64, Decode32, Decode64;
    LengthZero(hi, lo);
  }

  /** Every move has a size. */
  predicate AllDecode(ms: seq<Move>) {
    forall k :: 0 <= k < |ms| ==> !Aborts(Some(ms[k]))
  }

  lemma WideZero(x: bv32)
    ensures Wide(x) == 0 <==> x == 0
  {
  }

  lemma ComplementZero(x: bv32, y: bv64)
    ensures !x + 1 == 0 <==> x == 0
    ensures !y + 1 == 0 <==> y == 0
    ensures x > 0 <==> x != 0
    ensures y > 0 <==> y != 0
  {
  }

  /** The low half of a 64-bit BAR moves nothing; another BAR moves when its address changes. */
  function Detect32(c: Config, n: nat, value: bv32, mask: bv32): (r: (Config, Option<Move>))
    requires Shape(c) && n < NUM_BAR_REGS && c.bars[n].kind.Some?
    ensures Shape(r.0)
  {
    var bar := c.bars[n];
    if bar.kind == Some(Memory64) || Masked(value, mask) == Masked(bar.addr, mask) then (c, None)
    else
      (c.(bars := c.bars[n := bar.(addr := value)]),
       Some(Move(n, Wide(Masked(bar.addr, mask)), Wide(Masked(value, mask)), Length32(bar.size), bar.kind.value)))
  }

  /** The high half moves a 64-bit BAR when it or the low half, written before, changed. */
  function Detect64(c: Config, n: nat, value: bv32, mask: bv32): (r: (Config, Option<Move>))
    requires Shape(c) && 0 < n < NUM_BAR_REGS
    ensures Shape(r.0)
  {
    var hi, lo, loReg, loMask := c.bars[n], c.bars[n - 1], c.regs[BAR0_REG + n - 1], c.wbits[BAR0_REG + n - 1];
    if Masked(loReg, loMask) == Masked(lo.addr, loMask) && Masked(value, mask) == Masked(hi.addr, mask) then (c, None)
    else
      (c.(bars := c.bars[n := hi.(addr := value)][n - 1 := lo.(addr := loReg)]),
       Some(Move(n - 1, Join(Masked(hi.addr, mask), Masked(lo.addr, loMask)),
                 Join(Masked(value, mask), Masked(loReg, loMask)), Length64(hi.size, lo.size), Memory64)))
  }

  /** What the bus does with a write of four bytes: look for a move, then write the register. */
  function BusWrite(c: Config, i: nat, value: bv32): (r: (Config, Option<Move>))
    requires Shape(c) && i < NUM_CONFIGURATION_REGISTERS
    ensures Shape(r.0)
  {
    var (c', m) := Detect(c, i, value);
    (WriteReg(c', i, value), m)
  }

  /** Every BAR in use has the writable bits of its kind; a 64-bit one occupies two registers. */
  ghost predicate BarOk(c: Config, n: nat)
    requires Shape(c) && n < NUM_BAR_REGS
  {
    var bar := c.bars[n];
    match bar.kind
    case Some(Memory32) => bar.used && c.wbits[BAR0_REG + n] == BAR_MEM_ADDR_MASK && bar.size != 0
    case Some(IoRegion) => bar.used && c.wbits[BAR0_REG + n] == BAR_IO_ADDR_MASK && bar.size != 0
    case Some(Memory64) =>
      && bar.used && n + 1 < NUM_BAR_REGS && c.wbits[BAR0_REG + n] == BAR_MEM_ADDR_MASK
      && c.bars[n + 1].used && c.bars[n + 1].kind == None && c.wbits[BAR0_REG + n + 1] == ALL_ONES
      && Join(c.bars[n + 1].size, bar.size) != 0
    case None => bar.used ==> n > 0 && c.bars[n - 1].kind == Some(Memory64)
  }

  ghost predicate BarsOk(c: Config) {
    Shape(c) && (forall n :: 0 <= n < NUM_BAR_REGS ==> BarOk(c, n)) && RomOk(c)
  }

  /** The register of the expansion ROM is writable only if there is one. */
  ghost predicate RomOk(c: Config)
    requires Shape(c)
  {
    c.wbits[ROM_BAR_REG] == 0 || c.romSize != 0
  }

  /** Register `i` is not that of a BAR the device does not have. */
  predicate InUse(c: Config, i: nat)
    requires Shape(c)
  {
    i < NUM_CONFIGURATION_REGISTERS && (IsBarReg(i) ==> c.bars[i - BAR0_REG].used)
  }

  /** Only the stored addresses changed. */
  ghost predicate SameLayout(c: Config, c': Config) {
    && Shape(c) && Shape(c') && c'.wbits == c.wbits && c'.romSize == c.romSize && c'.romUsed == c.romUsed
    && c'.lastCap == c.lastCap
    && (forall n :: 0 <= n < NUM_BAR_REGS ==> c'.bars[n] == c.bars[n].(addr := c'.bars[n].addr))
  }

  lemma SameLayoutBars(c: Config, c': Config)
    requires BarsOk(c) && SameLayout(c, c')
    ensures BarsOk(c')
  {
    forall n | 0 <= n < NUM_BAR_REGS
      ensures BarOk(c', n)
    {
      assert BarOk(c, n);
    }
  }

  /** The base of BAR `n` went from the old to the new one of the move, or did not change. */
  ghost predicate Tracked(c: Config, c': Config, m: Option<Move>, n: nat)
    requires Shape(c) && Shape(c') && n <= ROM_BAR_IDX
  {
    if m.Some? && m.value.bar == n
    then BaseOf(c, n) == m.value.oldBase && BaseOf(c', n) == m.value.newBase
    else BaseOf(c', n) == BaseOf(c, n)
  }

  /** A BAR the device has; for a 64-bit one this is the number of its low half. */
  predicate HasBar(c: Config, n: nat)
    requires Shape(c)
  {
    n == ROM_BAR_IDX || (n < NUM_BAR_REGS && c.bars[n].kind.Some?)
  }

  /** The step keeps the layout, and its move, if any, is that of BAR `n` or of another the device has. */
  ghost predicate StepOk(c: Config, c': Config, m: Option<Move>, n: nat)
    requires BarsOk(c) && n <= ROM_BAR_IDX
  {
    && SameLayout(c, c') && BarsOk(c') && c'.regs == c.regs
    && (m.Some? ==> HasBar(c, m.value.bar)) && !Aborts(m) && Tracked(c, c', m, n)
  }

  lemma NoMove(c: Config, n: nat)
    requires BarsOk(c) && n <= ROM_BAR_IDX
    ensures StepOk(c, c, None, n)
  {
    hide BarOk;
  }

  lemma Moved32(c: Config, k: nat, value: bv32, n: nat)
    requires BarsOk(c) && k < NUM_BAR_REGS && c.bars[k].kind.Some? && HasBar(c, n)
    ensures var (c', m) := Detect32(c, k, value, c.wbits[BAR0_REG + k]); StepOk(c, c', m, n)
  {
    hide Masked, Wide, Join, Length32;
    var (c', m) := Detect32(c, k, value, c.wbits[BAR0_REG + k]);
    assert BarOk(c, k);
    LengthZero(0, c.bars[k].size);
    if m.None? {
      NoMove(c, n);
    } else {
      SameLayoutBars(c, c');
      assert n < NUM_BAR_REGS ==> BarOk(c, n);
    }
  }

  lemma Moved64(c: Config, k: nat, value: bv32, n: nat)
    requires BarsOk(c) && 0 < k < NUM_BAR_REGS && c.bars[k].kind.None? && c.bars[k].used && HasBar(c, n)
    ensures var (c', m) := Detect64(c, k, value, c.wbits[BAR0_REG + k]); StepOk(c, c', m, n)
  {
    hide Masked, Wide, Join, Length64, BarOk, SameLayout, BaseOf;
    var (c', m) := Detect64(c, k, value, c.wbits[BAR0_REG + k]);
    UpperHalf(c, k);
    UpperHalf64(c, n);
    MaskedAll(value);
    MaskedAll(c.bars[k].addr);
    LengthZero(c.bars[k].size, c.bars[k - 1].size);
    if m.None? {
      NoMove(c, n);
    } else {
      SameSizes(c, c', k);
      SameLayoutBars(c, c');
      if n == k - 1 {
        Base64(c, k);
        Base64(c', k);
      } else {
        BaseSame(c, c', k, n);
      }
    }
  }

  /** The base of a 64-bit BAR is its two halves. */
  lemma Base64(c: Config, k: nat)
    requires Shape(c) && 0 < k < NUM_BAR_REGS && c.bars[k - 1].kind == Some(Memory64)
    ensures BaseOf(c, k - 1) == Join(c.bars[k].addr, Masked(c.bars[k - 1].addr, c.wbits[BAR0_REG + k - 1]))
  {
    hide Masked, Join;
  }

  /** A change of the addresses at `k` and before changes no other base. */
  lemma BaseSame(c: Config, c': Config, k: nat, n: nat)
    requires BarsOk(c) && Shape(c') && 0 < k < NUM_BAR_REGS && HasBar(c, n) && n != k - 1
    requires c.bars[k].kind.None? && c.bars[k].used
    requires c' == c.(bars := c'.bars)
    requires forall i :: 0 <= i < NUM_BAR_REGS && i != k && i != k - 1 ==> c'.bars[i] == c.bars[i]
    ensures BaseOf(c', n) == BaseOf(c, n)
  {
    hide Masked, Join, Wide, BarOk;
    UpperHalf(c, k);
    UpperHalf64(c, n);
  }

  /** An upper half in use belongs to the 64-bit BAR before it. */
  lemma UpperHalf(c: Config, k: nat)
    requires BarsOk(c) && 0 < k < NUM_BAR_REGS && c.bars[k].kind.None? && c.bars[k].used
    ensures c.bars[k - 1].kind == Some(Memory64) && c.wbits[BAR0_REG + k] == ALL_ONES
    ensures Join(c.bars[k].size, c.bars[k - 1].size) != 0
  {
    hide Join;
    assert BarOk(c, k) && BarOk(c, k - 1);
  }

  lemma UpperHalf64(c: Config, n: nat)
    requires BarsOk(c) && HasBar(c, n)
    ensures n < NUM_BAR_REGS && c.bars[n].kind == Some(Memory64) ==> n + 1 < NUM_BAR_REGS && c.bars[n + 1].kind.None?
  {
    hide Join;
    assert n < NUM_BAR_REGS ==> BarOk(c, n);
  }

  lemma SameSizes(c: Config, c': Config, k: nat)
    requires Shape(c) && Shape(c') && 0 < k < NUM_BAR_REGS
    requires c' == c.(bars := c.bars[k := c.bars[k].(addr := c'.bars[k].addr)]
                                    [k - 1 := c.bars[k - 1].(addr := c'.bars[k - 1].addr)])
    ensures SameLayout(c, c')
  {
  }

  lemma MovedRom(c: Config, value: bv32, n: nat)
    requires BarsOk(c) && HasBar(c, n)
    ensures var (c', m) := Detect(c, ROM_BAR_REG, value); StepOk(c, c', m, n)
  {
    hide Masked, Wide, Join, Length32, BarOk;
    var (c', m) := Detect(c, ROM_BAR_REG, value);
    NothingMasked(value, c.romAddr);
    LengthZero(0, c.romSize);
    if m.None? {
      NoMove(c, n);
    } else {
      SameLayoutBars(c, c');
    }
  }

  lemma NothingMasked(a: bv32, b: bv32)
    ensures Masked(a, 0) == Masked(b, 0)
  {
  }

  lemma DetectTracks(c: Config, i: nat, value: bv32, n: nat)
    requires BarsOk(c) && InUse(c, i) && HasBar(c, n)
    ensures var (c', m) := Detect(c, i, value); StepOk(c, c', m, n)
  {
    hide Masked, Wide, Join, Length32, Detect32, Detect64, StepOk, BarOk;
    NoMove(c, n);
    if IsBarReg(i) {
      var k := i - BAR0_REG;
      if c.bars[k].kind.Some? {
        Moved32(c, k, value, n);
      } else if k > 0 {
        Moved64(c, k, value, n);
      }
    } else if i == ROM_BAR_REG {
      MovedRom(c, value, n);
    }
  }

  lemma WriteKeepsBase(c: Config, i: nat, value: bv32, n: nat)
    requires BarsOk(c) && i < NUM_CONFIGURATION_REGISTERS && n <= ROM_BAR_IDX
    ensures var c' := WriteReg(c, i, value);
            SameLayout(c, c') && BarsOk(c') && Tracked(c, c', None, n)
  {
    hide Merged, Masked, Wide, Join, BarOk;
    SameLayoutBars(c, WriteReg(c, i, value));
  }

  /** What a write to a BAR in use reports is exactly how the base addresses change. */
  lemma MoveTracksBase(c: Config, i: nat, value: bv32, n: nat)
    requires BarsOk(c) && InUse(c, i) && HasBar(c, n)
    ensures var (c', m) := BusWrite(c, i, value);
            && SameLayout(c, c') && BarsOk(c')
            && (m.Some? ==> HasBar(c, m.value.bar)) && !Aborts(m) && Tracked(c, c', m, n)
  {
    hide Detect, WriteReg, BaseOf, BarOk, RomOk;
    var (c1, m) := Detect(c, i, value);
    DetectTracks(c, i, value, n);
    WriteKeepsBase(c1, i, value, n);
  }

  // Whole runs.

  datatype Write = Write(reg: nat, value: bv32)

  /** The writes, one after the other, and the moves they cause. */
  function Run(c: Config, ws: seq<Write>): (r: (Config, seq<Move>))
    requires Shape(c) && forall k :: 0 <= k < |ws| ==> ws[k].reg < NUM_CONFIGURATION_REGISTERS
    ensures Shape(r.0)
  {
    if ws == [] then (c, []) else
    var n := |ws| - 1;
    var (c1, ms) := Run(c, ws[..n]);
    var (c2, m) := BusWrite(c1, ws[n].reg, ws[n].value);
    (c2, if m.Some? then ms + [m.value] else ms)
  }

  /** The moves of BAR `n` lead from `first` to `last`, each starting where the one before ended. */
  predicate Chained(ms: seq<Move>, n: nat, first: bv64, last: bv64) {
    if ms == [] then first == last else
    var m := ms[|ms| - 1];
    if m.bar == n then m.newBase == last && Chained(ms[..|ms| - 1], n, first, m.oldBase)
    else Chained(ms[..|ms| - 1], n, first, last)
  }

  /**
   * Over every run of writes to registers of BARs in use the moves reported for a BAR form a chain:
   * from its base before the run to its base after it. Every size decodes.
   */
  lemma {:induction false} MovesFormChain(c: Config, ws: seq<Write>, n: nat)
    requires BarsOk(c) && HasBar(c, n)
    requires forall k :: 0 <= k < |ws| ==> ws[k].reg < NUM_CONFIGURATION_REGISTERS && InUse(c, ws[k].reg)
    ensures var (c', ms) := Run(c, ws);
            && SameLayout(c, c') && BarsOk(c') && Chained(ms, n, BaseOf(c, n), BaseOf(c', n))
            && AllDecode(ms)
  {
    hide BusWrite, BarOk, RomOk, BaseOf, SameLayout, Aborts, InUse, HasBar, Chained, AllDecode;
    LayoutSteps(c, c, c, n);
    ChainNone(n, BaseOf(c, n));
    if ws != [] {
      var k := |ws| - 1;
      MovesFormChain(c, ws[..k], n);
      var (c1, ms) := Run(c, ws[..k]);
      LayoutSteps(c, c1, c1, n);
      StaysInUse(c, c1, ws[k].reg);
      MoveTracksBase(c1, ws[k].reg, ws[k].value, n);
      var (c2, m) := BusWrite(c1, ws[k].reg, ws[k].value);
      LayoutSteps(c, c1, c2, n);
      ChainMore(ms, m, n, BaseOf(c, n), BaseOf(c1, n), BaseOf(c2, n));
    }
  }

  lemma LayoutSteps(c: Config, c1: Config, c2: Config, n: nat)
    requires BarsOk(c) && HasBar(c, n)
    ensures SameLayout(c, c) && n <= ROM_BAR_IDX
    ensures SameLayout(c, c1) && SameLayout(c1, c2) ==> SameLayout(c, c2)
    ensures SameLayout(c, c1) ==> HasBar(c1, n)
  {
    hide BarOk, RomOk;
  }

  lemma StaysInUse(c: Config, c': Config, i: nat)
    requires SameLayout(c, c') && InUse(c, i)
    ensures InUse(c', i)
  {
  }

  lemma ChainNone(n: nat, first: bv64)
    ensures Chained([], n, first, first) && AllDecode([])
  {
  }

  /** One more step of a chain; a move of another BAR, or none, leaves the base alone. */
  lemma ChainMore(ms: seq<Move>, m: Option<Move>, n: nat, first: bv64, last: bv64, last': bv64)
    requires Chained(ms, n, first, last) && AllDecode(ms) && !Aborts(m)
    requires if m.Some? && m.value.bar == n then m.value.oldBase == last && m.value.newBase == last' else last' == last
    ensures var ms' := if m.Some? then ms + [m.value] else ms; Chained(ms', n, first, last') && AllDecode(ms')
  {
    hide Aborts;
    assert m.Some? ==> (ms + [m.value])[..|ms|] == ms;
  }

  // Adding a BAR.

  datatype BarConfig = BarConfig(idx: nat, addr: bv64, size: bv64, kind: RegionType, prefetchable: bool)

  datatype BarError = BarInUse | BarSizeInvalid | BarAddressInvalid | BarInvalid64 | BarInUse64 | Encode32BarSize

  function AddressMask(kind: RegionType): bv32 {
    if kind == IoRegion then BAR_IO_ADDR_MASK else BAR_MEM_ADDR_MASK
  }

  /** The read-only low bits of a BAR. */
  function LowerBits(b: BarConfig): bv32 {
    if b.kind == IoRegion then 0x01 else
    (if b.prefetchable then 0x08 else 0) | (if b.kind == Memory64 then 0x04 else 0)
  }

  /** The region does not end within 64 bits. */
  predicate Overflows(addr: bv64, size: bv64) {
    addr > 0xffff_ffff_ffff_ffff - (size - 1)
  }

  /** The region does not end within 32 bits. */
  predicate Beyond32(addr: bv64, size: bv64) {
    addr + (size - 1) > 0xffff_ffff
  }

  function BarCheck(c: Config, b: BarConfig): Option<BarError>
    requires Shape(c) && b.idx < NUM_BAR_REGS
  {
    if c.bars[b.idx].used then Some(BarInUse)
    else if !PowerOfTwo(b.size) then Some(BarSizeInvalid)
    else if Overflows(b.addr, b.size) then Some(BarAddressInvalid)
    else if b.kind == Memory64 then
      if b.idx + 1 >= NUM_BAR_REGS then Some(BarInvalid64)
      else if c.bars[b.idx + 1].used then Some(BarInUse64)
      else None
    else if Beyond32(b.addr, b.size) then Some(BarAddressInvalid)
    else if Lo(b.size) == 0 then Some(Encode32BarSize)
    else None
  }

  /** `add_pci_bar`. */
  function AddBar(c: Config, b: BarConfig): (r: (Config, Option<BarError>))
    requires Shape(c) && b.idx < NUM_BAR_REGS
    ensures Shape(r.0)
  {
    var e := BarCheck(c, b);
    if e.Some? then (c, e) else
    var mask, i := AddressMask(b.kind), BAR0_REG + b.idx;
    var reg := Merged(LowerBits(b), 0, Lo(b.addr), mask);
    if b.kind == Memory64 then
      var (hi, lo) := (Hi(SizeBits64(b.size)), Lo(SizeBits64(b.size)));
      (c.(regs := c.regs[i + 1 := Hi(b.addr)][i := reg], wbits := c.wbits[i + 1 := ALL_ONES][i := mask],
          bars := c.bars[b.idx + 1 := c.bars[b.idx + 1].(addr := Hi(b.addr), size := hi, used := true)]
                        [b.idx := PciBar(reg, lo, true, Some(b.kind))]), None)
    else
      (c.(regs := c.regs[i := reg], wbits := c.wbits[i := mask],
          bars := c.bars[b.idx := PciBar(reg, SizeBits32(Lo(b.size)), true, Some(b.kind))]), None)
  }

  /** The configured address with the bits a BAR cannot hold cleared. */
  function Aligned(b: BarConfig): bv64 {
    var lo := Masked(Lo(b.addr), AddressMask(b.kind));
    if b.kind == Memory64 then Join(Hi(b.addr), lo) else Wide(lo)
  }

  /** The size BAR `n` reports when it moves. */
  function SizeOf(c: Config, n: nat): bv64
    requires Shape(c) && n < NUM_BAR_REGS
  {
    if c.bars[n].kind == Some(Memory64) && n + 1 < NUM_BAR_REGS then Length64(c.bars[n + 1].size, c.bars[n].size)
    else Length32(c.bars[n].size)
  }

  lemma LowBitsMasked(b: BarConfig, lo: bv32)
    ensures var mask := AddressMask(b.kind); Masked(Merged(LowerBits(b), 0, lo, mask), mask) == Masked(lo, mask)
  {
    hide Masked, Merged, LowerBits;
    LowerClear(b);
    MergedClear(LowerBits(b), lo, AddressMask(b.kind));
  }

  lemma LowerClear(b: BarConfig)
    ensures Masked(LowerBits(b), AddressMask(b.kind)) == 0
  {
    assert 0x01 & BAR_IO_ADDR_MASK == 0;
    assert (0x08 | 0x04) & BAR_MEM_ADDR_MASK == 0 && (0x08 | 0) & BAR_MEM_ADDR_MASK == 0;
    assert (0 | 0x04) & BAR_MEM_ADDR_MASK == 0 && (0 | 0) & BAR_MEM_ADDR_MASK == 0;
  }

  lemma MergedClear(bits: bv32, lo: bv32, mask: bv32)
    requires Masked(bits, mask) == 0
    ensures Masked(Merged(bits, 0, lo, mask), mask) == Masked(lo, mask)
  {
  }

  /** Nothing the device already has reaches into register `idx`. */
  lemma FreeBar(c: Config, idx: nat)
    requires BarsOk(c) && idx < NUM_BAR_REGS && !c.bars[idx].used
    ensures c.bars[idx].kind == None
    ensures idx > 0 ==> c.bars[idx - 1].kind != Some(Memory64)
    ensures idx + 1 < NUM_BAR_REGS && c.bars[idx + 1].used ==> c.bars[idx + 1].kind.Some?
  {
    assert BarOk(c, idx);
    assert idx > 0 ==> BarOk(c, idx - 1);
    assert idx + 1 < NUM_BAR_REGS ==> BarOk(c, idx + 1);
  }

  lemma BarKept(c: Config, b: BarConfig, n: nat)
    requires BarsOk(c) && b.idx < NUM_BAR_REGS && AddBar(c, b).1.None?
    requires n < NUM_BAR_REGS && n != b.idx && !(b.kind == Memory64 && n == b.idx + 1)
    ensures var c' := AddBar(c, b).0;
            && BarOk(c', n) && c'.bars[n] == c.bars[n]
            && (c.bars[n].kind.Some? ==> BaseOf(c', n) == BaseOf(c, n))
  {
    hide Masked, Merged, Wide, Join, Hi, Lo, PowerOfTwo, LowerBits, SizeBits32, SizeBits64, BarCheck, Overflows,
         Beyond32;
    CheckFacts(c, b);
    FreeBar(c, b.idx);
    if b.kind == Memory64 {
      FreeBar(c, b.idx + 1);
    }
    assert BarOk(c, n);
    var c' := AddBar(c, b).0;
    assert c'.bars[n] == c.bars[n] && c'.wbits[BAR0_REG + n] == c.wbits[BAR0_REG + n];
    if c.bars[n].kind == Some(Memory64) {
      assert c'.bars[n + 1] == c.bars[n + 1] && c'.wbits[BAR0_REG + n + 1] == c.wbits[BAR0_REG + n + 1];
    } else if c.bars[n].kind == None && c.bars[n].used {
      assert c'.bars[n - 1] == c.bars[n - 1];
    }
  }

  lemma CheckFacts(c: Config, b: BarConfig)
    requires Shape(c) && b.idx < NUM_BAR_REGS && BarCheck(c, b).None?
    ensures PowerOfTwo(b.size) && !Overflows(b.addr, b.size) && !c.bars[b.idx].used
    ensures b.kind == Memory64 ==> b.idx + 1 < NUM_BAR_REGS && !c.bars[b.idx + 1].used
    ensures b.kind != Memory64 ==> !Beyond32(b.addr, b.size) && Lo(b.size) != 0
  {
    hide PowerOfTwo, Overflows, Beyond32, Lo;
  }

  lemma BarNew(c: Config, b: BarConfig)
    requires BarsOk(c) && b.idx < NUM_BAR_REGS && AddBar(c, b).1.None?
    ensures var c' := AddBar(c, b).0;
            && BarOk(c', b.idx) && c'.bars[b.idx].kind == Some(b.kind)
            && (b.kind == Memory64 ==> BarOk(c', b.idx + 1))
            && BaseOf(c', b.idx) == Aligned(b) && SizeOf(c', b.idx) == b.size
  {
    hide BarOk, BaseOf, SizeOf, Aligned, AddBar, BarsOk;
    BarPlaced(c, b);
    BarPlacedBase(c, b);
  }

  lemma BarPlaced(c: Config, b: BarConfig)
    requires BarsOk(c) && b.idx < NUM_BAR_REGS && AddBar(c, b).1.None?
    ensures var c' := AddBar(c, b).0;
            && BarOk(c', b.idx) && c'.bars[b.idx].kind == Some(b.kind)
            && (b.kind == Memory64 ==> BarOk(c', b.idx + 1))
  {
    hide Masked, Merged, Wide, Join, Hi, Lo, PowerOfTwo, LowerBits, Length32, Length64, BarCheck, SizeBits32,
         SizeBits64, Overflows, Beyond32;
    CheckFacts(c, b);
    LowBitsMasked(b, Lo(b.addr));
    SizeKept(b);
    FreeBar(c, b.idx);
    if b.kind == Memory64 {
      FreeBar(c, b.idx + 1);
    }
  }

  lemma BarPlacedBase(c: Config, b: BarConfig)
    requires BarsOk(c) && b.idx < NUM_BAR_REGS && AddBar(c, b).1.None?
    ensures var c' := AddBar(c, b).0;
            c'.bars[b.idx].kind == Some(b.kind) && BaseOf(c', b.idx) == Aligned(b) && SizeOf(c', b.idx) == b.size
  {
    hide Masked, Merged, Wide, Join, Hi, Lo, PowerOfTwo, LowerBits, Length32, Length64, BarCheck, SizeBits32,
         SizeBits64, Overflows, Beyond32, BarOk;
    CheckFacts(c, b);
    LowBitsMasked(b, Lo(b.addr));
    SizeKept(b);
    FreeBar(c, b.idx);
  }

  /** After a BAR was added its base is the configured address, aligned; the other bases are as before. */
  lemma BarAdded(c: Config, b: BarConfig)
    requires BarsOk(c) && b.idx < NUM_BAR_REGS && AddBar(c, b).1.None?
    ensures var c' := AddBar(c, b).0;
            && BarsOk(c') && HasBar(c', b.idx) && c'.bars[b.idx].kind == Some(b.kind)
            && BaseOf(c', b.idx) == Aligned(b) && SizeOf(c', b.idx) == b.size
            && (forall n :: HasBar(c, n) && n != ROM_BAR_IDX ==>
                  HasBar(c', n) && n != b.idx && BaseOf(c', n) == BaseOf(c, n))
  {
    hide BarOk, BaseOf, SizeOf, Aligned, BarCheck, Overflows, Beyond32;
    CheckFacts(c, b);
    BarNew(c, b);
    var c' := AddBar(c, b).0;
    FreeBar(c, b.idx);
    if b.kind == Memory64 {
      FreeBar(c, b.idx + 1);
    }
    forall n | 0 <= n < NUM_BAR_REGS
      ensures BarOk(c', n)
      ensures c.bars[n].kind.Some? ==> n != b.idx && c'.bars[n] == c.bars[n] && BaseOf(c', n) == BaseOf(c, n)
    {
      if n != b.idx && !(b.kind == Memory64 && n == b.idx + 1) {
        BarKept(c, b, n);
      }
    }
  }

  /** The encoded size decodes to the configured one. */
  lemma SizeKept(b: BarConfig)
    requires PowerOfTwo(b.size) && !Overflows(b.addr, b.size)
    requires b.kind != Memory64 ==> !Beyond32(b.addr, b.size) && Lo(b.size) != 0
    ensures b.kind == Memory64 ==>
              && Length64(Hi(SizeBits64(b.size)), Lo(SizeBits64(b.size))) == b.size
              && Join(Hi(SizeBits64(b.size)), Lo(SizeBits64(b.size))) != 0
    ensures b.kind != Memory64 ==> Length32(SizeBits32(Lo(b.size))) == b.size && SizeBits32(Lo(b.size)) != 0
  {
    hide Join, Hi, Lo, Wide, SizeBits32, SizeBits64, Overflows, Beyond32;
    JoinSplit(SizeBits64(b.size));
    Complement64(b.size);
    if b.kind != Memory64 {
      Complement32(Lo(b.size));
      SmallSize(b.addr, b.size);
    }
  }

  lemma Complement32(s: bv32)
    requires s != 0
    ensures !SizeBits32(s) + 1 == s && SizeBits32(s) != 0
  {
  }

  lemma SmallSize(addr: bv64, size: bv64)
    requires PowerOfTwo(size) && !Overflows(addr, size) && !Beyond32(addr, size)
    requires Lo(size) != 0
    ensures Wide(Lo(size)) == size
  {
  }

  // Asking for the size.

  /** The registers of BAR `n` hold the address the device knows. */
  predicate Settled(c: Config, n: nat)
    requires Shape(c) && n < NUM_BAR_REGS
  {
    var i := BAR0_REG + n;
    && Masked(c.regs[i], c.wbits[i]) == Masked(c.bars[n].addr, c.wbits[i])
    && (n + 1 < NUM_BAR_REGS && c.bars[n].kind == Some(Memory64) ==>
          c.regs[i + 1] == c.bars[n + 1].addr)
  }

  /** The size a guest computes from what it reads back after writing all ones. */
  function Probed(r: bv32, mask: bv32): bv32 {
    !Masked(r, mask) + 1
  }

  function Probed64(hi: bv32, lo: bv32, mask: bv32): bv64 {
    !Join(hi, Masked(lo, mask)) + 1
  }

  predicate AtLeast16(size: bv64) {
    16 <= size
  }

  lemma ProbeExact64(size: bv64)
    requires PowerOfTwo(size)
    ensures Probed64(Hi(SizeBits64(size)), Lo(SizeBits64(size)), BAR_MEM_ADDR_MASK) == size <==> AtLeast16(size)
  {
  }

  lemma ProbedMasked(hi: bv32, lo: bv32, lo': bv32, mask: bv32)
    requires Masked(lo, mask) == Masked(lo', mask)
    ensures Probed64(hi, lo, mask) == Probed64(hi, lo', mask)
  {
    hide Join, Masked;
  }

  lemma MergedBack(r: bv32, w: bv32, x: bv32)
    ensures Merged(Merged(r, w, ALL_ONES, Masked(w, x)), w, r, w) == r
    ensures Masked(Merged(r, w, ALL_ONES, Masked(w, x)), w) == Masked(x, w)
  {
  }

  /** Below 16 bytes of memory or 4 of I/O space a BAR cannot express its size. */
  lemma ProbeExact(size: bv32, mask: bv32)
    requires size != 0 && size & (size - 1) == 0 && (mask == BAR_MEM_ADDR_MASK || mask == BAR_IO_ADDR_MASK)
    ensures !Masked(SizeBits32(size), mask) + 1 == size <==> !mask + 1 <= size
  {
  }

  /**
   * A guest that writes all ones to a 32-bit BAR, reads it, and writes back what was there causes no
   * move, leaves no trace, and learns the size, given it is one the BAR can express.
   */
  lemma ProbeLeavesNoTrace32(c: Config, n: nat, size: bv32)
    requires BarsOk(c) && n < NUM_BAR_REGS && (c.bars[n].kind == Some(Memory32) || c.bars[n].kind == Some(IoRegion))
    requires Settled(c, n) && c.regs[BAR0_REG + n] != ALL_ONES
    requires size != 0 && size & (size - 1) == 0 && c.bars[n].size == SizeBits32(size)
    ensures var i := BAR0_REG + n;
            var (c1, m1) := BusWrite(c, i, ALL_ONES);
            var (c2, m2) := BusWrite(c1, i, c.regs[i]);
            && m1 == None && m2 == None && c2 == c
            && (Probed(ReadReg(c1, i), c.wbits[i]) == size <==> !c.wbits[i] + 1 <= size)
  {
    hide Masked, Merged, Wide, Length32, Length64;
    var i := BAR0_REG + n;
    assert BarOk(c, n);
    MergedBack(c.regs[i], c.wbits[i], c.bars[n].size);
    ProbeExact(size, c.wbits[i]);
    var (c1, m1) := BusWrite(c, i, ALL_ONES);
    assert c1.regs == c.regs[i := Merged(c.regs[i], c.wbits[i], ALL_ONES, Masked(c.wbits[i], c.bars[n].size))];
    var (c2, m2) := BusWrite(c1, i, c.regs[i]);
    assert c2.regs == c.regs;
  }

  /**
   * The same for a 64-bit BAR, both halves probed and the low half restored first: the high half,
   * which decides about a move, then finds everything as it was. Both halves together give the size.
   */
  lemma ProbeLeavesNoTrace64(c: Config, n: nat, size: bv64)
    requires BarsOk(c) && n < NUM_BAR_REGS && c.bars[n].kind == Some(Memory64) && Settled(c, n)
    requires n + 1 < NUM_BAR_REGS && c.regs[BAR0_REG + n] != ALL_ONES && c.regs[BAR0_REG + n + 1] != ALL_ONES
    requires PowerOfTwo(size) && c.bars[n].size == Lo(SizeBits64(size)) && c.bars[n + 1].size == Hi(SizeBits64(size))
    ensures var i := BAR0_REG + n;
            var (c1, m1) := BusWrite(c, i, ALL_ONES);
            var (c2, m2) := BusWrite(c1, i + 1, ALL_ONES);
            var (c3, m3) := BusWrite(c2, i, c.regs[i]);
            var (c4, m4) := BusWrite(c3, i + 1, c.regs[i + 1]);
            && m1 == None && m2 == None && m3 == None && m4 == None && c4 == c
            && (Probed64(ReadReg(c2, i + 1), ReadReg(c2, i), c.wbits[i]) == size <==> AtLeast16(size))
  {
    hide Masked, Merged, BusWrite, Lo, Hi, PowerOfTwo, SizeBits64, Probed64, AtLeast16;
    ProbeExact64(size);
    var i := BAR0_REG + n;
    assert BarOk(c, n);
    var lo, hi := c.regs[i], c.regs[i + 1];
    var probedLo := Merged(lo, c.wbits[i], ALL_ONES, Masked(c.wbits[i], c.bars[n].size));
    var probedHi := Merged(hi, ALL_ONES, ALL_ONES, Masked(ALL_ONES, c.bars[n + 1].size));
    MergedBack(lo, c.wbits[i], c.bars[n].size);
    MergedBack(hi, ALL_ONES, c.bars[n + 1].size);
    MaskedAll(probedHi);
    MaskedAll(c.bars[n + 1].size);
    var c1 := c.(regs := c.regs[i := probedLo]);
    AllOnesWritten(c, n);
    var c2 := c1.(regs := c1.regs[i + 1 := probedHi]);
    AllOnesWritten(c1, n + 1);
    var c3 := c.(regs := c.regs[i + 1 := probedHi]);
    LowHalfWritten(c2, n, lo);
    assert c2.regs[i := lo] == c3.regs;
    HighHalfWritten(c3, n + 1, hi);
    assert c3.regs[i + 1 := hi] == c.regs;
    ProbedMasked(probedHi, probedLo, c.bars[n].size, c.wbits[i]);
  }

  lemma AllOnesWritten(c: Config, k: nat)
    requires Shape(c) && k < NUM_BAR_REGS
    ensures var i := BAR0_REG + k;
            BusWrite(c, i, ALL_ONES) ==
            (c.(regs := c.regs[i := Merged(c.regs[i], c.wbits[i], ALL_ONES, Masked(c.wbits[i], c.bars[k].size))]), None)
  {
    hide Masked, Merged, Detect32, Detect64;
  }

  lemma LowHalfWritten(c: Config, k: nat, value: bv32)
    requires Shape(c) && k < NUM_BAR_REGS && c.bars[k].kind == Some(Memory64) && value != ALL_ONES
    ensures var i := BAR0_REG + k;
            BusWrite(c, i, value) == (c.(regs := c.regs[i := Merged(c.regs[i], c.wbits[i], value, c.wbits[i])]), None)
  {
    hide Masked, Merged, Detect64, Length32, Wide;
  }

  /** Writing the address the device knows to the high half, with the low half settled, moves nothing. */
  lemma HighHalfWritten(c: Config, k: nat, value: bv32)
    requires Shape(c) && 0 < k < NUM_BAR_REGS && c.bars[k].kind == None && value != ALL_ONES
    requires value == c.bars[k].addr
    requires Masked(c.regs[BAR0_REG + k - 1], c.wbits[BAR0_REG + k - 1]) ==
             Masked(c.bars[k - 1].addr, c.wbits[BAR0_REG + k - 1])
    ensures var i := BAR0_REG + k;
            BusWrite(c, i, value) == (c.(regs := c.regs[i := Merged(c.regs[i], c.wbits[i], value, c.wbits[i])]), None)
  {
    hide Masked, Merged, Detect32, Length64, Join;
  }

  /**
   * Restoring the high half first is taken for a move, to the size mask of the low half, exactly when
   * that mask differs from the address.
   */
  lemma HighHalfFirst(c: Config, n: nat)
    requires BarsOk(c) && n < NUM_BAR_REGS && c.bars[n].kind == Some(Memory64) && Settled(c, n)
    requires n + 1 < NUM_BAR_REGS && c.regs[BAR0_REG + n + 1] != ALL_ONES
    ensures var i := BAR0_REG + n;
            var c1 := BusWrite(c, i, ALL_ONES).0;
            BusWrite(c1, i + 1, c.regs[i + 1]).1.None? <==>
            Masked(c.bars[n].size, c.wbits[i]) == Masked(c.bars[n].addr, c.wbits[i])
  {
    hide Masked, Merged, Wide, Length32, Length64, Join;
    var i := BAR0_REG + n;
    assert BarOk(c, n);
    assert BarOk(c, n + 1);
    LowHalfNeverMoves(c, n, ALL_ONES);
    MergedBack(c.regs[i], c.wbits[i], c.bars[n].size);
  }

  /** A 64-bit BAR does not move when its low half is written. */
  lemma LowHalfNeverMoves(c: Config, n: nat, value: bv32)
    requires BarsOk(c) && n < NUM_BAR_REGS && c.bars[n].kind == Some(Memory64)
    ensures BusWrite(c, BAR0_REG + n, value).1.None?
  {
  }

  /**
   * Registers of BARs the device does not have must be left out: a write there reports a move, exactly if
   * the register before it or the value written differs from the address known, and it aborts the program
   * if there is no BAR before it either.
   */
  lemma UnusedRegisterMoves(c: Config, n: nat, value: bv32)
    requires Shape(c) && 0 < n < NUM_BAR_REGS && c.bars[n] == PciBar(0, 0, false, None)
    ensures var m := BusWrite(c, BAR0_REG + n, value).1;
            var mask, loMask := c.wbits[BAR0_REG + n], c.wbits[BAR0_REG + n - 1];
            && (m.Some? <==>
                value != ALL_ONES
                && (Masked(c.regs[BAR0_REG + n - 1], loMask) != Masked(c.bars[n - 1].addr, loMask)
                    || Masked(value, mask) != Masked(0, mask)))
            && (Aborts(m) <==> m.Some? && c.bars[n - 1].size == 0)
  {
    hide Wide, Join, Length64, Masked;
    LengthZero(0, c.bars[n - 1].size);
    JoinZero(c.bars[n - 1].size);
  }

  lemma JoinZero(lo: bv32)
    ensures Join(0, lo) == 0 <==> lo == 0
  {
  }
}
