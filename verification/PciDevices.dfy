/** The configuration space as the device keeps it: arrays of registers, updated in place. */
module PciDevices {
  import opened Wrappers
  import opened PciConfigs
  import opened PciCapabilities

  /** A device without BARs and capabilities; `regs` and `wbits` as the header type asks for. */
  predicate Blank(c: Config) {
    && Shape(c) && (forall n :: 0 <= n < NUM_BAR_REGS ==> c.bars[n] == PciBar(0, 0, false, None))
    && c.romAddr == 0 && c.romSize == 0 && !c.romUsed && c.lastCap == None
    && c.regs[CAPABILITY_LIST_HEAD_OFFSET / 4] == 0 && c.wbits[CAPABILITY_LIST_HEAD_OFFSET / 4] == 0
    && (forall r :: FIRST_CAPABILITY_OFFSET / 4 <= r < 64 ==> c.wbits[r] == 0)
    && c.wbits[ROM_BAR_REG] == 0
  }

  lemma BlankOk(c: Config)
    requires Blank(c)
    ensures BarsOk(c) && CapsOk(c, [])
  {
    assert RegByte(0, 0) == 0;
    assert forall r :: FIRST_CAPABILITY_OFFSET / 4 <= r < 64 ==> c.wbits[r] & 0xffff == 0;
  }

  // Inputs at which a guest's writes do something else than it means.

  /** A 64-bit BAR of 16 KiB at 4 GiB, probed and then restored high half first, is moved. */
  lemma HighHalfFirstMoves(c: Config)
    requires Blank(c)
    ensures var (c1, e) := AddBar(c, BarConfig(0, 0x1_0000_0000, 0x4000, Memory64, false));
            e.None? && BusWrite(BusWrite(c1, BAR0_REG, ALL_ONES).0, BAR0_REG + 1, c1.regs[BAR0_REG + 1]).1.Some?
  {
    var b := BarConfig(0, 0x1_0000_0000, 0x4000, Memory64, false);
    BlankOk(c);
    Checked64(c, b);
    BarAdded(c, b);
    var c1 := AddBar(c, b).0;
    Added64(c, b);
    hide AddBar, BusWrite, BarsOk;
    HighHalfFirst(c1, 0);
  }

  lemma Checked64(c: Config, b: BarConfig)
    requires Blank(c) && b == BarConfig(0, 0x1_0000_0000, 0x4000, Memory64, false)
    ensures AddBar(c, b).1.None?
  {
    assert PowerOfTwo(0x4000) && !Overflows(0x1_0000_0000, 0x4000);
  }

  /** The address of that BAR is not its size mask. */
  lemma Added64(c: Config, b: BarConfig)
    requires Blank(c) && b == BarConfig(0, 0x1_0000_0000, 0x4000, Memory64, false) && AddBar(c, b).1.None?
    ensures var c1 := AddBar(c, b).0;
            && c1.bars[0].kind == Some(Memory64) && Settled(c1, 0) && c1.regs[BAR0_REG + 1] != ALL_ONES
            && Masked(c1.bars[0].size, c1.wbits[BAR0_REG]) != Masked(c1.bars[0].addr, c1.wbits[BAR0_REG])
  {
    assert Hi(0x1_0000_0000) == 1 && Lo(SizeBits64(0x4000)) == 0xffff_c000;
    assert Merged(LowerBits(b), 0, Lo(b.addr), BAR_MEM_ADDR_MASK) == 0x4;
    assert Masked(0xffff_c000, BAR_MEM_ADDR_MASK) == 0xffff_c000 && Masked(0x4, BAR_MEM_ADDR_MASK) == 0;
  }

  /** Behind a 32-bit BAR of 4 KiB that is being probed, a write of zero to the unused register is taken for a move. */
  lemma UnusedBehindProbe(c: Config)
    requires Blank(c)
    ensures var (c1, e) := AddBar(c, BarConfig(0, 0x8000, 0x1000, Memory32, false));
            var m := BusWrite(BusWrite(c1, BAR0_REG, ALL_ONES).0, BAR0_REG + 1, 0).1;
            e.None? && m.Some? && !Aborts(m)
  {
    var b := BarConfig(0, 0x8000, 0x1000, Memory32, false);
    Added32(c, b);
    var c1 := AddBar(c, b).0;
    AllOnesWritten(c1, 0);
    var c2 := BusWrite(c1, BAR0_REG, ALL_ONES).0;
    MergedBack(c1.regs[BAR0_REG], c1.wbits[BAR0_REG], c1.bars[0].size);
    hide AddBar, BusWrite, Masked, Merged;
    UnusedRegisterMoves(c2, 1, 0);
  }

  lemma Added32(c: Config, b: BarConfig)
    requires Blank(c) && b == BarConfig(0, 0x8000, 0x1000, Memory32, false)
    ensures var (c1, e) := AddBar(c, b);
            && e.None? && c1.bars[1] == PciBar(0, 0, false, None) && c1.bars[0].size != 0
            && Masked(c1.bars[0].size, c1.wbits[BAR0_REG]) != Masked(c1.bars[0].addr, c1.wbits[BAR0_REG])
  {
    assert PowerOfTwo(0x1000) && !Overflows(0x8000, 0x1000) && !Beyond32(0x8000, 0x1000) && Lo(0x1000) == 0x1000;
    assert SizeBits32(0x1000) == 0xffff_f000;
    assert Merged(LowerBits(b), 0, Lo(b.addr), BAR_MEM_ADDR_MASK) == 0x8000;
    assert Masked(0xffff_f000, BAR_MEM_ADDR_MASK) == 0xffff_f000 && Masked(0x8000, BAR_MEM_ADDR_MASK) == 0x8000;
  }

  /** Register 9 of a bridge, its memory base and limit, is the register of a BAR it does not have: a write aborts. */
  lemma BridgeRegisterAborts(c: Config)
    requires Blank(c) && c.wbits[9] == 0xfff0_fff0
    ensures Aborts(BusWrite(c, 9, 0x10).1)
  {
    assert Masked(0x10, 0xfff0_fff0) == 0x10 && Masked(0, 0xfff0_fff0) == 0;
    hide BusWrite, Masked, Aborts;
    UnusedRegisterMoves(c, 5, 0x10);
  }

  /** What a header must have for the device to be blank. */
  lemma HeaderBlank(c: Config)
    requires Shape(c) && (forall n :: 0 <= n < NUM_BAR_REGS ==> c.bars[n] == PciBar(0, 0, false, None))
    requires c.romAddr == 0 && c.romSize == 0 && !c.romUsed && c.lastCap == None && c.regs[13] == 0
    requires c.wbits[ROM_BAR_REG] == 0 && c.wbits[13] == 0 && forall r :: 16 <= r < 64 ==> c.wbits[r] == 0
    ensures Blank(c)
  {
    assert CAPABILITY_LIST_HEAD_OFFSET / 4 == 13 && FIRST_CAPABILITY_OFFSET / 4 == 16;
  }

  /** What the write of an upper half does, from the move it stands for. */
  lemma UpperStep(c: Config, n: nat, value: bv32, mask: bv32)
    requires Shape(c) && 0 < n < NUM_BAR_REGS
    ensures var (c', m) := Detect64(c, n, value, mask);
            && (m.None? ==> c' == c && !Aborts(m))
            && (m.Some? ==>
                  && c' == c.(bars := c.bars[n := c.bars[n].(addr := value)]
                                            [n - 1 := c.bars[n - 1].(addr := c.regs[BAR0_REG + n - 1])])
                  && (Aborts(m) <==> Decode64(c.bars[n].size, c.bars[n - 1].size).None?))
  {
    hide Masked, Join, Length64, Aborts, Decode64;
    NoMoveNoAbort();
    var m := Detect64(c, n, value, mask).1;
    if m.Some? {
      AbortsIf(m.value, c.bars[n].size, c.bars[n - 1].size);
    }
  }

  lemma NoMoveNoAbort()
    ensures !Aborts(None)
  {
  }

  class PciConfiguration {
    const registers: array<bv32>
    const writableBits: array<bv32>
    const bars: array<PciBar>
    var romBarAddr: bv32
    var romBarSize: bv32
    var romBarUsed: bool
    var lastCapability: Option<(nat, nat)>
    var msixCapRegIdx: Option<nat>

    ghost predicate Valid()
      reads this, registers, writableBits, bars
    {
      && registers.Length == NUM_CONFIGURATION_REGISTERS && writableBits.Length == NUM_CONFIGURATION_REGISTERS
      && bars.Length == NUM_BAR_REGS && registers != writableBits
    }

    ghost function View(): (c: Config)
      requires Valid()
      reads this, registers, writableBits, bars
      ensures Shape(c)
    {
      Config(registers[..], writableBits[..], bars[..], romBarAddr, romBarSize, romBarUsed, lastCapability)
    }

    constructor (vendorId: bv32, deviceId: bv32, revision: bv32, classBits: bv32, bridge: bool, subsystem: bv32)
      ensures Valid() && fresh(registers) && fresh(writableBits)
      ensures fresh(bars) && Blank(View()) && msixCapRegIdx == None
      ensures BarsOk(View()) && CapsOk(View(), []) && writableBits[9] == if bridge then 0xfff0_fff0 else 0
    {
      hide Blank, BarsOk, CapsOk;
      registers := new bv32[NUM_CONFIGURATION_REGISTERS](_ => 0);
      writableBits := new bv32[NUM_CONFIGURATION_REGISTERS](_ => 0);
      bars := new PciBar[NUM_BAR_REGS](_ => PciBar(0, 0, false, None));
      romBarAddr, romBarSize, romBarUsed := 0, 0, false;
      lastCapability, msixCapRegIdx := None, None;
      new;
      FillHeader((deviceId << 16) | vendorId, classBits | revision, bridge, subsystem);
      HeaderBlank(View());
      BlankOk(View());
    }

    /** The registers of the header, and which of their bits a guest may write. */
    method FillHeader(ids: bv32, classBits: bv32, bridge: bool, subsystem: bv32)
      requires Valid() && forall r :: 0 <= r < NUM_CONFIGURATION_REGISTERS ==> registers[r] == 0 && writableBits[r] == 0
      modifies registers, writableBits
      ensures registers[13] == 0 && writableBits[ROM_BAR_REG] == 0 && writableBits[13] == 0
      ensures writableBits[9] == if bridge then 0xfff0_fff0 else 0
      ensures forall r :: 16 <= r < 64 ==> writableBits[r] == 0
    {
      registers[0] := ids;
      writableBits[1] := 0x0000_ffff;  // status read-only, command writable
      registers[2] := classBits;
      writableBits[3] := 0x0000_00ff;  // cache line size
      if bridge {
        registers[3] := 0x0001_0000;
        writableBits[9] := 0xfff0_fff0;   // memory base and limit
        writableBits[15] := 0xffff_00ff;  // bridge control, interrupt line
      } else {
        writableBits[15] := 0x0000_00ff;  // interrupt line
      }
      registers[11] := subsystem;
    }

    method WriteRegister(regIdx: nat, value: bv32)
      requires Valid() && regIdx < NUM_CONFIGURATION_REGISTERS
      modifies registers
      ensures Valid() && View() == WriteReg(old(View()), regIdx, value)
    {
      hide Masked, Merged;
      var mask := writableBits[regIdx];
      if IsBarReg(regIdx) {
        // All ones ask for the size of the BAR.
        if value == ALL_ONES {
          mask := Masked(mask, bars[regIdx - BAR0_REG].size);
        }
      } else if regIdx == ROM_BAR_REG {
        if Masked(value, ROM_BAR_ADDR_MASK) == ROM_BAR_ADDR_MASK {
          mask := Masked(mask, romBarSize);
        }
      }
      registers[regIdx] := Merged(registers[regIdx], writableBits[regIdx], value, mask);
    }

    method WriteWordAt(offset: nat, value: bv32)
      requires Valid()
      modifies registers
      ensures Valid() && View() == WriteWord(old(View()), offset, value)
    {
      hide Masked, Merged, WordLane, WordAt;
      if offset % 2 != 0 || offset / 4 >= NUM_CONFIGURATION_REGISTERS {
        return;
      }
      var regIdx, writable := offset / 4, writableBits[offset / 4];
      registers[regIdx] :=
        Merged(registers[regIdx], Masked(WordLane(offset % 4), writable), WordAt(offset % 4, value), writable);
    }

    method WriteByteAt(offset: nat, value: bv32, applyWritableMask: bool)
      requires Valid()
      modifies registers
      ensures Valid() && View() == WriteByte(old(View()), offset, value, applyWritableMask)
    {
      hide Masked, Merged, ByteLane, ByteAt;
      if offset / 4 >= NUM_CONFIGURATION_REGISTERS {
        return;
      }
      var regIdx := offset / 4;
      var writable := if applyWritableMask then writableBits[regIdx] else ALL_ONES;
      registers[regIdx] :=
        Merged(registers[regIdx], Masked(ByteLane(offset % 4), writable), ByteAt(offset % 4, value), writable);
    }

    /** `write_config_register`. Returns the message control word for the MSI-X table, if one was written. */
    method WriteConfigRegister(a: Access) returns (msgCtl: Option<bv32>)
      requires Valid() && a.reg < NUM_CONFIGURATION_REGISTERS
      modifies registers
      ensures Valid() && View() == WriteConfig(old(View()), a)
      ensures msgCtl == if msixCapRegIdx != Some(a.reg) then None
                        else if a.offset == 2 && a.length == 2 then Some(a.value)
                        else if a.offset == 0 && a.length == 4 then Some(a.value >> 16)
                        else None
    {
      hide WriteByte, WriteWord, WriteReg;
      msgCtl := None;
      if a.offset + a.length > 4 {
        return;
      }
      if msixCapRegIdx == Some(a.reg) {
        if a.offset == 2 && a.length == 2 {
          msgCtl := Some(a.value);
        } else if a.offset == 0 && a.length == 4 {
          msgCtl := Some(a.value >> 16);
        }
      }
      if a.length == 1 {
        WriteByteAt(a.reg * 4 + a.offset, a.value, true);
      } else if a.length == 2 {
        WriteWordAt(a.reg * 4 + a.offset, a.value);
      } else if a.length == 4 {
        WriteRegister(a.reg, a.value);
      }
    }

    /** The move of a 64-bit BAR that a write to its upper half stands for. */
    method LookAtUpperHalf(n: nat, value: bv32) returns (m: Option<Move>)
      requires Valid() && 0 < n < NUM_BAR_REGS
      ensures m == Detect64(View(), n, value, writableBits[BAR0_REG + n]).1
    {
      hide Masked, Join, Length64;
      var regIdx, bar := BAR0_REG + n, bars[n];
      var mask := writableBits[regIdx];
      var lo, loReg, loMask := bars[n - 1], registers[regIdx - 1], writableBits[regIdx - 1];
      if Masked(loReg, loMask) == Masked(lo.addr, loMask) && Masked(value, mask) == Masked(bar.addr, mask) {
        return None;
      }
      return Some(Move(n - 1, Join(Masked(bar.addr, mask), Masked(lo.addr, loMask)),
                       Join(Masked(value, mask), Masked(loReg, loMask)), Length64(bar.size, lo.size), Memory64));
    }

    /** The case of an upper half: it moves the 64-bit BAR it belongs to. */
    method DetectUpperHalf(n: nat, value: bv32) returns (m: Option<Move>, aborted: bool)
      requires Valid() && 0 < n < NUM_BAR_REGS
      modifies bars
      ensures Valid() && (aborted <==> Aborts(Detect64(old(View()), n, value, writableBits[BAR0_REG + n]).1))
      ensures if aborted then View() == old(View())
              else (View(), m) == Detect64(old(View()), n, value, writableBits[BAR0_REG + n])
    {
      hide Detect64, Aborts, Decode64;
      ghost var c, mask := View(), writableBits[BAR0_REG + n];
      UpperStep(c, n, value, mask);
      m := LookAtUpperHalf(n, value);
      if m.None? {
        return None, false;
      }
      if Decode64(bars[n].size, bars[n - 1].size).None? {
        return None, true;
      }
      aborted := false;
      bars[n] := bars[n].(addr := value);
      bars[n - 1] := bars[n - 1].(addr := registers[BAR0_REG + n - 1]);
      assert bars[..] == c.bars[n := c.bars[n].(addr := value)]
                               [n - 1 := c.bars[n - 1].(addr := c.regs[BAR0_REG + n - 1])];
    }

    /** The case of a BAR of its own: a 64-bit one waits for its upper half, another moves with its address. */
    method DetectBar(n: nat, value: bv32) returns (m: Option<Move>, aborted: bool)
      requires Valid() && n < NUM_BAR_REGS && bars[n].kind.Some?
      modifies bars
      ensures Valid() && (aborted <==> Aborts(Detect32(old(View()), n, value, writableBits[BAR0_REG + n]).1))
      ensures if aborted then View() == old(View())
              else (View(), m) == Detect32(old(View()), n, value, writableBits[BAR0_REG + n])
    {
      hide Masked, Wide, Length32, Aborts, Decode32;
      NoMoveNoAbort();
      var bar, mask := bars[n], writableBits[BAR0_REG + n];
      if bar.kind == Some(Memory64) || Masked(value, mask) == Masked(bar.addr, mask) {
        return None, false;
      }
      var move := Move(n, Wide(Masked(bar.addr, mask)), Wide(Masked(value, mask)), Length32(bar.size), bar.kind.value);
      AbortsIf(move, 0, bar.size);
      if Decode32(bar.size).None? {
        return None, true;
      }
      bars[n] := bar.(addr := value);
      return Some(move), false;
    }

    /** The case of the expansion ROM. */
    method DetectRom(value: bv32) returns (m: Option<Move>, aborted: bool)
      requires Valid()
      modifies this`romBarAddr
      ensures Valid() && (aborted <==> Aborts(Detect(old(View()), ROM_BAR_REG, value).1))
      ensures if aborted then View() == old(View()) else (View(), m) == Detect(old(View()), ROM_BAR_REG, value)
    {
      hide Masked, Wide, Length32, Aborts, Decode32, Detect32, Detect64;
      NoMoveNoAbort();
      var mask := writableBits[ROM_BAR_REG];
      if Masked(value, mask) == Masked(romBarAddr, mask) || Masked(value, ROM_BAR_ADDR_MASK) == ROM_BAR_ADDR_MASK {
        return None, false;
      }
      var move := Move(ROM_BAR_IDX, Wide(Masked(romBarAddr, mask)), Wide(Masked(value, mask)), Length32(romBarSize),
                       Memory32);
      AbortsIf(move, 0, romBarSize);
      if Decode32(romBarSize).None? {
        return None, true;
      }
      romBarAddr := value;
      return Some(move), false;
    }

    /** `detect_bar_reprogramming` for a write of four bytes; a size that does not decode aborts it. */
    method DetectBarReprogramming(regIdx: nat, value: bv32) returns (m: Option<Move>, aborted: bool)
      requires Valid() && regIdx < NUM_CONFIGURATION_REGISTERS
      modifies this`romBarAddr, bars
      ensures Valid() && (aborted <==> Aborts(Detect(old(View()), regIdx, value).1))
      ensures if aborted then View() == old(View()) else (View(), m) == Detect(old(View()), regIdx, value)
    {
      hide Masked, Wide, Length32, Detect32, Detect64, Aborts;
      NoMoveNoAbort();
      m, aborted := None, false;
      if IsBarReg(regIdx) {
        // A probe for the size moves nothing.
        if value == ALL_ONES {
          return;
        }
        var n := regIdx - BAR0_REG;
        if bars[n].kind.Some? {
          m, aborted := DetectBar(n, value);
        } else if n > 0 {
          m, aborted := DetectUpperHalf(n, value);
        }
      } else if regIdx == ROM_BAR_REG {
        m, aborted := DetectRom(value);
      }
    }

    /** A write of four bytes, as the bus performs it. */
    method BusWriteDword(regIdx: nat, value: bv32) returns (m: Option<Move>, aborted: bool)
      requires Valid() && regIdx < NUM_CONFIGURATION_REGISTERS
      modifies this`romBarAddr, bars, registers
      ensures Valid() && (aborted <==> Aborts(BusWrite(old(View()), regIdx, value).1))
      ensures if aborted then View() == old(View()) else (View(), m) == BusWrite(old(View()), regIdx, value)
    {
      hide Detect, WriteReg, Aborts;
      m, aborted := DetectBarReprogramming(regIdx, value);
      if aborted {
        return;
      }
      var _ := WriteConfigRegister(Access(regIdx, 0, 4, value));
    }

    /** `add_pci_bar`. */
    method AddPciBar(b: BarConfig) returns (e: Option<BarError>)
      requires Valid() && b.idx < NUM_BAR_REGS
      modifies registers, writableBits, bars
      ensures Valid() && (View(), e) == AddBar(old(View()), b)
    {
      hide Masked, Merged, Hi, Lo, SizeBits32, SizeBits64, LowerBits, PowerOfTwo, Overflows, Beyond32;
      e := CheckBar(b);
      if e.Some? {
        return;
      }
      var regIdx, mask := BAR0_REG + b.idx, AddressMask(b.kind);
      var size := SizeBits32(Lo(b.size));
      if b.kind == Memory64 {
        registers[regIdx + 1] := Hi(b.addr);
        writableBits[regIdx + 1] := ALL_ONES;
        size := Lo(SizeBits64(b.size));
        bars[b.idx + 1] := bars[b.idx + 1].(addr := Hi(b.addr), size := Hi(SizeBits64(b.size)), used := true);
      }
      registers[regIdx] := Merged(LowerBits(b), 0, Lo(b.addr), mask);
      writableBits[regIdx] := mask;
      bars[b.idx] := PciBar(registers[regIdx], size, true, Some(b.kind));
    }

    method CheckBar(b: BarConfig) returns (e: Option<BarError>)
      requires Valid() && b.idx < NUM_BAR_REGS
      ensures e == BarCheck(View(), b)
    {
      hide Lo, PowerOfTwo, Overflows, Beyond32;
      if bars[b.idx].used {
        return Some(BarInUse);
      }
      if !PowerOfTwo(b.size) {
        return Some(BarSizeInvalid);
      }
      if Overflows(b.addr, b.size) {
        return Some(BarAddressInvalid);
      }
      if b.kind == Memory64 {
        if b.idx + 1 >= NUM_BAR_REGS {
          return Some(BarInvalid64);
        }
        if bars[b.idx + 1].used {
          return Some(BarInUse64);
        }
      } else {
        if Beyond32(b.addr, b.size) {
          return Some(BarAddressInvalid);
        }
        if Lo(b.size) == 0 {
          return Some(Encode32BarSize);
        }
      }
      return None;
    }

    /** `get_bar_addr`. */
    method GetBarAddr(n: nat) returns (addr: bv64)
      requires Valid() && n < NUM_BAR_REGS && (bars[n].kind == Some(Memory64) ==> n + 1 < NUM_BAR_REGS)
      ensures addr == BaseOf(View(), n)
    {
      hide Masked, Join, Wide;
      var lo := Masked(bars[n].addr, writableBits[BAR0_REG + n]);
      if bars[n].kind == Some(Memory64) {
        return Join(bars[n + 1].addr, lo);
      }
      return Wide(lo);
    }

    /** `add_capability`. */
    method AddPciCapability(id: bv8, payload: seq<bv8>) returns (e: Option<CapError>, offset: nat)
      requires Valid()
      modifies this`lastCapability, this`msixCapRegIdx, registers, writableBits
      ensures Valid() && (View(), e) == AddCapability(old(View()), id, payload)
      ensures e.None? ==> offset == CapPlace(old(View())).0
    {
      hide PutByte, PutBytes, Ptr, StatusSet;
      offset := 0;
      if payload == [] {
        return Some(CapabilityEmpty), offset;
      }
      ghost var c := View();
      var tail: nat;
      match lastCapability {
        case Some((last, len)) => offset, tail := NextDword(last, len), last + 1;
        case None => offset, tail := FIRST_CAPABILITY_OFFSET, CAPABILITY_LIST_HEAD_OFFSET;
      }
      if offset + |payload| > CAPABILITY_MAX_OFFSET {
        return Some(CapabilitySpaceFull), offset;
      }
      WriteCapability(offset, tail, id, payload);
      lastCapability := Some((offset, |payload|));
      if id == MSI_ID {
        writableBits[offset / 4] := MSI_CAPABILITY_REGISTER_MASK;
      } else if id == MSIX_ID {
        msixCapRegIdx := Some(offset / 4);
        writableBits[offset / 4] := MSIX_CAPABILITY_REGISTER_MASK;
      }
      e := None;
    }

    method WriteCapability(offset: nat, tail: nat, id: bv8, payload: seq<bv8>)
      requires Valid() && CapFits(View(), payload) && (offset, tail) == CapPlace(View()) && offset < 256
      modifies registers
      ensures Valid() && View() == CapWritten(old(View()), id, payload)
    {
      hide WriteByte, Ptr;
      registers[STATUS_REG] := registers[STATUS_REG] | STATUS_REG_CAPABILITIES_USED_MASK;
      assert View() == StatusSet(old(View()));
      WriteByteAt(tail, Ptr(offset) as bv32, false);
      WriteByteAt(offset, id as bv32, false);
      WriteByteAt(offset + 1, 0, false);
      ghost var c := View();
      for i := 0 to |payload|
        invariant Valid() && View() == PutBytes(c, offset + 2, payload[..i])
      {
        assert payload[..i + 1][..i] == payload[..i];
        WriteByteAt(offset + 2 + i, payload[i] as bv32, false);
      }
      assert payload[..|payload|] == payload;
    }
  }
}
