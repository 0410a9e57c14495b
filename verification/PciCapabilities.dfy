/** The capability list in the configuration space. */
module PciCapabilities {
  import opened ByteValues
  import opened Wrappers
  import opened PciConfigs

  const STATUS_REG: nat := 1
  const STATUS_REG_CAPABILITIES_USED_MASK: bv32 := 0x0010_0000
  const MSI_CAPABILITY_REGISTER_MASK: bv32 := 0x0071_0000
  const MSIX_CAPABILITY_REGISTER_MASK: bv32 := 0xc000_0000
  const CAPABILITY_LIST_HEAD_OFFSET: nat := 0x34
  const FIRST_CAPABILITY_OFFSET: nat := 0x40
  const CAPABILITY_MAX_OFFSET: nat := 192
  const MSI_ID: bv8 := 0x05
  const MSIX_ID: bv8 := 0x11
  const SPACE: nat := 4096

  // The space as bytes.

  function RegByte(r: bv32, k: nat): bv8 {
    if k == 0 then (r & 0xff) as bv8
    else if k == 1 then ((r >> 8) & 0xff) as bv8
    else if k == 2 then ((r >> 16) & 0xff) as bv8
    else ((r >> 24) & 0xff) as bv8
  }

  function ByteOf(c: Config, offset: nat): bv8
    requires Shape(c) && offset < SPACE
  {
    RegByte(c.regs[offset / 4], offset % 4)
  }

  function PutByte(c: Config, offset: nat, v: bv8): (c': Config)
    requires Shape(c)
    ensures Shape(c')
  {
    WriteByte(c, offset, v as bv32, false)
  }

  lemma Lane0(r: bv32, v: bv8)
    ensures var r' := Merged(r, Masked(ByteLane(0), ALL_ONES), ByteAt(0, v as bv32), ALL_ONES);
            RegByte(r', 0) == v && RegByte(r', 1) == RegByte(r, 1) && RegByte(r', 2) == RegByte(r, 2) &&
            RegByte(r', 3) == RegByte(r, 3)
  {
  }

  lemma Lane1(r: bv32, v: bv8)
    ensures var r' := Merged(r, Masked(ByteLane(1), ALL_ONES), ByteAt(1, v as bv32), ALL_ONES);
            RegByte(r', 0) == RegByte(r, 0) && RegByte(r', 1) == v && RegByte(r', 2) == RegByte(r, 2) &&
            RegByte(r', 3) == RegByte(r, 3)
  {
  }

  lemma Lane2(r: bv32, v: bv8)
    ensures var r' := Merged(r, Masked(ByteLane(2), ALL_ONES), ByteAt(2, v as bv32), ALL_ONES);
            RegByte(r', 0) == RegByte(r, 0) && RegByte(r', 1) == RegByte(r, 1) && RegByte(r', 2) == v &&
            RegByte(r', 3) == RegByte(r, 3)
  {
  }

  lemma Lane3(r: bv32, v: bv8)
    ensures var r' := Merged(r, Masked(ByteLane(3), ALL_ONES), ByteAt(3, v as bv32), ALL_ONES);
            RegByte(r', 0) == RegByte(r, 0) && RegByte(r', 1) == RegByte(r, 1) && RegByte(r', 2) == RegByte(r, 2) &&
            RegByte(r', 3) == v
  {
  }

  lemma LaneByte(r: bv32, k: nat, v: bv8, n: nat)
    requires k < 4 && n < 4
    ensures RegByte(Merged(r, Masked(ByteLane(k), ALL_ONES), ByteAt(k, v as bv32), ALL_ONES), n) ==
            if n == k then v else RegByte(r, n)
  {
    hide *;
    Lane0(r, v);
    Lane1(r, v);
    Lane2(r, v);
    Lane3(r, v);
  }

  /** Writing a byte changes that byte and no other. */
  lemma PutByteAt(c: Config, offset: nat, v: bv8, x: nat)
    requires Shape(c) && offset < SPACE && x < SPACE
    ensures ByteOf(PutByte(c, offset, v), x) == if x == offset then v else ByteOf(c, x)
    ensures PutByte(c, offset, v) == c.(regs := PutByte(c, offset, v).regs)
  {
    hide RegByte, Merged, Masked, ByteLane, ByteAt;
    if x / 4 == offset / 4 {
      LaneByte(c.regs[offset / 4], offset % 4, v, x % 4);
    }
  }

  /** Writing bytes one after the other. */
  function PutBytes(c: Config, offset: nat, bs: seq<bv8>): (c': Config)
    requires Shape(c)
    ensures Shape(c')
  {
    if bs == [] then c else
    var n := |bs| - 1;
    PutByte(PutBytes(c, offset, bs[..n]), offset + n, bs[n])
  }

  lemma {:induction false} PutBytesAt(c: Config, offset: nat, bs: seq<bv8>, x: nat)
    requires Shape(c) && offset + |bs| <= SPACE && x < SPACE
    ensures ByteOf(PutBytes(c, offset, bs), x) ==
            if offset <= x < offset + |bs| then bs[x - offset] else ByteOf(c, x)
    ensures PutBytes(c, offset, bs) == c.(regs := PutBytes(c, offset, bs).regs)
  {
    hide ByteOf, PutByte;
    if bs != [] {
      var n := |bs| - 1;
      PutBytesAt(c, offset, bs[..n], x);
      PutByteAt(PutBytes(c, offset, bs[..n]), offset + n, bs[n], x);
    }
  }

  /** A pointer to an offset. */
  function Ptr(offset: nat): bv8
    requires offset < 256
  {
    ToByte(offset)
  }

  lemma PtrBack(offset: nat)
    requires offset < 256
    ensures Ptr(offset) as nat == offset
  {
    ByteValue(offset);
  }

  // Adding a capability.

  datatype CapError = CapabilityEmpty | CapabilitySpaceFull

  /** A capability in the list: where it starts, its id and its bytes behind the two of the header. */
  datatype Cap = Cap(offset: nat, id: bv8, payload: seq<bv8>)

  function NextDword(offset: nat, len: nat): nat {
    (offset + len + 3) / 4 * 4
  }

  function CapPlace(c: Config): (nat, nat) {
    match c.lastCap
    case Some((offset, len)) => (NextDword(offset, len), offset + 1)
    case None => (FIRST_CAPABILITY_OFFSET, CAPABILITY_LIST_HEAD_OFFSET)
  }

  predicate CapFits(c: Config, payload: seq<bv8>) {
    payload != [] && CapPlace(c).0 + |payload| <= CAPABILITY_MAX_OFFSET
  }

  function StatusSet(c: Config): (c': Config)
    requires Shape(c)
    ensures Shape(c')
  {
    c.(regs := c.regs[STATUS_REG := c.regs[STATUS_REG] | STATUS_REG_CAPABILITIES_USED_MASK])
  }

  function CapWbits(c: Config, offset: nat, id: bv8): (w: seq<bv32>)
    requires Shape(c) && offset < SPACE
    ensures |w| == NUM_CONFIGURATION_REGISTERS
  {
    if id == MSI_ID then c.wbits[offset / 4 := MSI_CAPABILITY_REGISTER_MASK]
    else if id == MSIX_ID then c.wbits[offset / 4 := MSIX_CAPABILITY_REGISTER_MASK]
    else c.wbits
  }

  /** The bytes `add_capability` writes: the pointer to it, its header, its payload. */
  function CapWritten(c: Config, id: bv8, payload: seq<bv8>): (c': Config)
    requires Shape(c) && CapFits(c, payload)
    ensures Shape(c')
  {
    var (offset, tail) := CapPlace(c);
    PutBytes(PutByte(PutByte(PutByte(StatusSet(c), tail, Ptr(offset)), offset, id), offset + 1, 0), offset + 2, payload)
  }

  /** `add_capability`. */
  function AddCapability(c: Config, id: bv8, payload: seq<bv8>): (r: (Config, Option<CapError>))
    requires Shape(c)
    ensures Shape(r.0)
  {
    if payload == [] then (c, Some(CapabilityEmpty))
    else if !CapFits(c, payload) then (c, Some(CapabilitySpaceFull))
    else
      var offset := CapPlace(c).0;
      (CapWritten(c, id, payload).(lastCap := Some((offset, |payload|)), wbits := CapWbits(c, offset, id)), None)
  }

  // The list.

  function PtrTo(caps: seq<Cap>, k: nat): bv8
    requires forall i :: 0 <= i < |caps| ==> caps[i].offset < 256
  {
    if k < |caps| then Ptr(caps[k].offset) else 0
  }

  /** Where the capabilities lie: dword by dword behind each other. */
  ghost predicate PlacedOk(caps: seq<Cap>) {
    && (forall k :: 0 <= k < |caps| ==>
          && caps[k].offset % 4 == 0 && FIRST_CAPABILITY_OFFSET <= caps[k].offset && caps[k].payload != []
          && caps[k].offset + |caps[k].payload| <= CAPABILITY_MAX_OFFSET)
    && (caps != [] ==> caps[0].offset == FIRST_CAPABILITY_OFFSET)
    && (forall k :: 0 <= k && k + 1 < |caps| ==> caps[k + 1].offset == NextDword(caps[k].offset, |caps[k].payload|))
  }

  /** The header of every capability is in place, and the pointers lead from one to the next. */
  ghost predicate LinkedOk(c: Config, caps: seq<Cap>)
    requires Shape(c) && PlacedOk(caps)
  {
    && ByteOf(c, CAPABILITY_LIST_HEAD_OFFSET) == PtrTo(caps, 0)
    && (forall k :: 0 <= k < |caps| ==>
          ByteOf(c, caps[k].offset) == caps[k].id && ByteOf(c, caps[k].offset + 1) == PtrTo(caps, k + 1))
  }

  /** Byte `i` of the payload of capability `k` was not given to the next capability. */
  predicate Own(caps: seq<Cap>, k: nat, i: nat)
    requires k < |caps|
  {
    k + 1 < |caps| ==> caps[k].offset + 2 + i < caps[k + 1].offset
  }

  /** Payload bytes in registers a guest cannot write are as they were added. */
  ghost predicate PayloadOk(c: Config, caps: seq<Cap>)
    requires Shape(c) && PlacedOk(caps)
  {
    forall k, i :: 0 <= k < |caps| && 0 <= i < |caps[k].payload| && Own(caps, k, i) ==>
      c.wbits[(caps[k].offset + 2 + i) / 4] == 0 ==> ByteOf(c, caps[k].offset + 2 + i) == caps[k].payload[i]
  }

  /** Neither the head of the list nor an id or a pointer in it is writable. */
  ghost predicate HeadersReadOnly(c: Config)
    requires Shape(c)
  {
    && c.wbits[CAPABILITY_LIST_HEAD_OFFSET / 4] == 0
    && (forall r :: FIRST_CAPABILITY_OFFSET / 4 <= r < 64 ==> c.wbits[r] & 0xffff == 0)
  }

  ghost predicate CapsOk(c: Config, caps: seq<Cap>) {
    && Shape(c) && PlacedOk(caps) && LinkedOk(c, caps) && PayloadOk(c, caps) && HeadersReadOnly(c)
    && c.lastCap == if caps == [] then None
                    else Some((caps[|caps| - 1].offset, |caps[|caps| - 1].payload|))
  }

  lemma NextDwordFacts(offset: nat, len: nat)
    requires offset % 4 == 0 && 0 < len
    ensures NextDword(offset, len) % 4 == 0 && offset < NextDword(offset, len)
    ensures offset + len <= NextDword(offset, len) < offset + len + 4
    ensures offset + 2 + len <= NextDword(offset, len) <==> len % 4 == 1 || len % 4 == 2
  {
  }

  /**
   * The bytes of neighbouring capabilities are disjoint exactly when the length of the first is 1 or
   * 2 modulo 4: the two bytes of its header are not counted when the next one is placed.
   */
  lemma NeighboursDisjoint(caps: seq<Cap>, k: nat)
    requires PlacedOk(caps) && k + 1 < |caps|
    ensures caps[k].offset + 2 + |caps[k].payload| <= caps[k + 1].offset <==>
            |caps[k].payload| % 4 == 1 || |caps[k].payload| % 4 == 2
  {
    NextDwordFacts(caps[k].offset, |caps[k].payload|);
  }

  /** The list grows upwards. */
  lemma {:induction false} Ascending(caps: seq<Cap>, j: nat, k: nat)
    requires PlacedOk(caps) && j < k < |caps|
    ensures NextDword(caps[j].offset, |caps[j].payload|) <= caps[k].offset && caps[j].offset + 4 <= caps[k].offset
    decreases k
  {
    NextDwordFacts(caps[k - 1].offset, |caps[k - 1].payload|);
    if j < k - 1 {
      Ascending(caps, j, k - 1);
    }
  }

  /** Where the next capability goes. */
  lemma PlaceNext(c: Config, caps: seq<Cap>, id: bv8, payload: seq<bv8>)
    requires CapsOk(c, caps) && CapFits(c, payload)
    ensures PlacedOk(caps + [Cap(CapPlace(c).0, id, payload)])
    ensures CapPlace(c).0 % 4 == 0 && FIRST_CAPABILITY_OFFSET <= CapPlace(c).0 < CAPABILITY_MAX_OFFSET
    ensures CapPlace(c).1 == if caps == [] then CAPABILITY_LIST_HEAD_OFFSET else caps[|caps| - 1].offset + 1
    ensures 8 <= CapPlace(c).1 < CapPlace(c).0
    ensures forall k :: 0 <= k < |caps| ==> caps[k].offset + 4 <= CapPlace(c).0
  {
    hide LinkedOk, PayloadOk, HeadersReadOnly;
    var caps' := caps + [Cap(CapPlace(c).0, id, payload)];
    if caps != [] {
      var last := caps[|caps| - 1];
      NextDwordFacts(last.offset, |last.payload|);
    }
    assert PlacedOk(caps');
    forall k | 0 <= k < |caps|
      ensures caps[k].offset + 4 <= CapPlace(c).0
    {
      Ascending(caps', k, |caps|);
    }
  }

  /** What adding a capability does to every byte behind the command register. */
  lemma CapWrittenAt(c: Config, id: bv8, payload: seq<bv8>, x: nat)
    requires Shape(c) && CapFits(c, payload) && 8 <= x < SPACE && CapPlace(c).0 < CAPABILITY_MAX_OFFSET
    requires 8 <= CapPlace(c).1 < CapPlace(c).0
    ensures var (offset, tail) := CapPlace(c);
            ByteOf(CapWritten(c, id, payload), x) ==
            if offset + 2 <= x < offset + 2 + |payload| then payload[x - offset - 2]
            else if x == offset + 1 then 0
            else if x == offset then id
            else if x == tail then Ptr(offset)
            else ByteOf(c, x)
    ensures CapWritten(c, id, payload) == c.(regs := CapWritten(c, id, payload).regs)
  {
    hide PutByte, PutBytes, Ptr, ByteOf, StatusSet;
    var (offset, tail) := CapPlace(c);
    var c0 := StatusSet(c);
    StatusAt(c, x);
    var c1 := PutByte(c0, tail, Ptr(offset));
    PutByteAt(c0, tail, Ptr(offset), x);
    var c2 := PutByte(c1, offset, id);
    PutByteAt(c1, offset, id, x);
    var c3 := PutByte(c2, offset + 1, 0);
    PutByteAt(c2, offset + 1, 0, x);
    PutBytesAt(c3, offset + 2, payload, x);
  }

  lemma StatusAt(c: Config, x: nat)
    requires Shape(c) && 8 <= x < SPACE
    ensures ByteOf(StatusSet(c), x) == ByteOf(c, x) && StatusSet(c) == c.(regs := StatusSet(c).regs)
  {
    hide RegByte;
  }

  lemma MasksClear()
    ensures MSI_CAPABILITY_REGISTER_MASK & 0xffff == 0 && MSIX_CAPABILITY_REGISTER_MASK & 0xffff == 0
    ensures MSI_CAPABILITY_REGISTER_MASK != 0 && MSIX_CAPABILITY_REGISTER_MASK != 0
  {
  }

  /** A capability that was added is the last of the list. */
  lemma CapAdded(c: Config, caps: seq<Cap>, id: bv8, payload: seq<bv8>)
    requires CapsOk(c, caps) && AddCapability(c, id, payload).1.None?
    ensures CapsOk(AddCapability(c, id, payload).0, caps + [Cap(CapPlace(c).0, id, payload)])
  {
    hide ByteOf, Ptr, CapWritten, PlacedOk;
    var c', caps' := AddCapability(c, id, payload).0, caps + [Cap(CapPlace(c).0, id, payload)];
    PlaceNext(c, caps, id, payload);
    AddedLinks(c, caps, id, payload);
    AddedPayload(c, caps, id, payload);
    MasksClear();
    CapWrittenAt(c, id, payload, 8);
  }

  lemma AddedFits(c: Config, id: bv8, payload: seq<bv8>)
    requires Shape(c) && AddCapability(c, id, payload).1.None?
    ensures CapFits(c, payload)
  {
    hide CapWritten, CapWbits;
  }

  /** A register a guest cannot write after the addition was one it could not write before. */
  lemma AddedWbits(c: Config, id: bv8, payload: seq<bv8>, r: nat)
    requires Shape(c) && AddCapability(c, id, payload).1.None? && r < NUM_CONFIGURATION_REGISTERS
    ensures AddCapability(c, id, payload).0.wbits[r] == 0 ==> c.wbits[r] == 0
  {
    hide CapWritten;
    MasksClear();
  }

  lemma AddedLinks(c: Config, caps: seq<Cap>, id: bv8, payload: seq<bv8>)
    requires CapsOk(c, caps) && AddCapability(c, id, payload).1.None?
    requires PlacedOk(caps + [Cap(CapPlace(c).0, id, payload)])
    ensures LinkedOk(AddCapability(c, id, payload).0, caps + [Cap(CapPlace(c).0, id, payload)])
  {
    hide Ptr, CapWritten, PayloadOk, HeadersReadOnly, NextDword, ByteOf, CapPlace, AddCapability, CapFits, PtrTo;
    var c', caps' := AddCapability(c, id, payload).0, caps + [Cap(CapPlace(c).0, id, payload)];
    HeadLink(c, caps, id, payload);
    AddedFits(c, id, payload);
    PlaceNext(c, caps, id, payload);
    forall k | 0 <= k < |caps'|
      ensures ByteOf(c', caps'[k].offset) == caps'[k].id && ByteOf(c', caps'[k].offset + 1) == PtrTo(caps', k + 1)
    {
      if k < |caps| {
        OldLink(c, caps, id, payload, k);
      } else {
        NewLink(c, caps, id, payload);
      }
    }
  }

  lemma HeadLink(c: Config, caps: seq<Cap>, id: bv8, payload: seq<bv8>)
    requires CapsOk(c, caps) && AddCapability(c, id, payload).1.None?
    requires PlacedOk(caps + [Cap(CapPlace(c).0, id, payload)])
    ensures var c', caps' := AddCapability(c, id, payload).0, caps + [Cap(CapPlace(c).0, id, payload)];
            ByteOf(c', CAPABILITY_LIST_HEAD_OFFSET) == PtrTo(caps', 0)
  {
    hide Ptr, CapWritten, PayloadOk, HeadersReadOnly, NextDword, ByteOf, CapPlace, AddCapability, CapFits;
    AddedFits(c, id, payload);
    PlaceNext(c, caps, id, payload);
    SameBytes(c, id, payload, CAPABILITY_LIST_HEAD_OFFSET);
    TailsApart(c, caps);
    assert caps != [] ==> (caps + [Cap(CapPlace(c).0, id, payload)])[0] == caps[0];
  }

  /** The new capability is the end of the list. */
  lemma NewLink(c: Config, caps: seq<Cap>, id: bv8, payload: seq<bv8>)
    requires CapsOk(c, caps) && AddCapability(c, id, payload).1.None?
    requires PlacedOk(caps + [Cap(CapPlace(c).0, id, payload)])
    ensures var c', caps' := AddCapability(c, id, payload).0, caps + [Cap(CapPlace(c).0, id, payload)];
            ByteOf(c', CapPlace(c).0) == id && ByteOf(c', CapPlace(c).0 + 1) == PtrTo(caps', |caps| + 1)
  {
    hide Ptr, CapWritten, PayloadOk, HeadersReadOnly, NextDword, ByteOf, CapPlace, AddCapability, CapFits, LinkedOk;
    AddedFits(c, id, payload);
    PlaceNext(c, caps, id, payload);
    SameBytes(c, id, payload, CapPlace(c).0);
    SameBytes(c, id, payload, CapPlace(c).0 + 1);
  }

  /** The links there were stay as they are, except that the last one leads to the new capability. */
  lemma OldLink(c: Config, caps: seq<Cap>, id: bv8, payload: seq<bv8>, k: nat)
    requires CapsOk(c, caps) && AddCapability(c, id, payload).1.None? && k < |caps|
    requires PlacedOk(caps + [Cap(CapPlace(c).0, id, payload)])
    ensures var c', caps' := AddCapability(c, id, payload).0, caps + [Cap(CapPlace(c).0, id, payload)];
            ByteOf(c', caps[k].offset) == caps[k].id && ByteOf(c', caps[k].offset + 1) == PtrTo(caps', k + 1)
  {
    hide Ptr, CapWritten, PayloadOk, HeadersReadOnly, NextDword, ByteOf, CapPlace, AddCapability, CapFits;
    var caps' := caps + [Cap(CapPlace(c).0, id, payload)];
    AddedFits(c, id, payload);
    PlaceNext(c, caps, id, payload);
    TailsApart(c, caps);
    SameBytes(c, id, payload, caps[k].offset);
    SameBytes(c, id, payload, caps[k].offset + 1);
    assert caps'[k] == caps[k];
    if k + 1 < |caps| {
      assert caps[k + 1] == caps'[k + 1];
    }
  }

  /** The pointer that is redirected is that of the last capability only. */
  lemma TailsApart(c: Config, caps: seq<Cap>)
    requires CapsOk(c, caps)
    ensures forall k :: 0 <= k < |caps| - 1 ==> caps[k].offset + 4 <= caps[|caps| - 1].offset
  {
    hide NextDword, LinkedOk, PayloadOk, HeadersReadOnly;
    forall k | 0 <= k < |caps| - 1
      ensures caps[k].offset + 4 <= caps[|caps| - 1].offset
    {
      Ascending(caps, k, |caps| - 1);
    }
  }

  /** The bytes after adding, whatever the writable bits. */
  lemma SameBytes(c: Config, id: bv8, payload: seq<bv8>, x: nat)
    requires Shape(c) && AddCapability(c, id, payload).1.None? && 8 <= x < SPACE
    requires 8 <= CapPlace(c).1 < CapPlace(c).0 < CAPABILITY_MAX_OFFSET
    ensures var (offset, tail) := CapPlace(c);
            ByteOf(AddCapability(c, id, payload).0, x) ==
            if offset + 2 <= x < offset + 2 + |payload| then payload[x - offset - 2]
            else if x == offset + 1 then 0
            else if x == offset then id
            else if x == tail then Ptr(offset)
            else ByteOf(c, x)
  {
    hide Ptr, CapWritten, RegByte;
    CapWrittenAt(c, id, payload, x);
  }

  lemma AddedPayload(c: Config, caps: seq<Cap>, id: bv8, payload: seq<bv8>)
    requires CapsOk(c, caps) && AddCapability(c, id, payload).1.None?
    requires PlacedOk(caps + [Cap(CapPlace(c).0, id, payload)])
    ensures PayloadOk(AddCapability(c, id, payload).0, caps + [Cap(CapPlace(c).0, id, payload)])
  {
    hide Ptr, CapWritten, LinkedOk, HeadersReadOnly, ByteOf, AddCapability, CapFits, CapPlace, NextDword;
    var c', caps' := AddCapability(c, id, payload).0, caps + [Cap(CapPlace(c).0, id, payload)];
    AddedFits(c, id, payload);
    PlaceNext(c, caps, id, payload);
    forall k, i | 0 <= k < |caps'| && 0 <= i < |caps'[k].payload| && Own(caps', k, i)
      ensures c'.wbits[(caps'[k].offset + 2 + i) / 4] == 0 ==>
              ByteOf(c', caps'[k].offset + 2 + i) == caps'[k].payload[i]
    {
      SameBytes(c, id, payload, caps'[k].offset + 2 + i);
      if k < |caps| {
        OldPayloadByte(c, caps, caps', k, i);
        AddedWbits(c, id, payload, (caps[k].offset + 2 + i) / 4);
      }
    }
  }

  /** A payload byte still owned lies before the new capability. */
  lemma OldPayloadByte(c: Config, caps: seq<Cap>, caps': seq<Cap>, k: nat, i: nat)
    requires CapsOk(c, caps) && PlacedOk(caps') && |caps'| == |caps| + 1 && caps'[..|caps|] == caps && k < |caps|
    requires caps'[|caps|].offset == CapPlace(c).0 && Own(caps', k, i)
    ensures caps[k].offset + 2 + i < CapPlace(c).0 && Own(caps, k, i)
    ensures caps[k].offset + 2 + i != CapPlace(c).1
  {
    hide NextDword, LinkedOk, PayloadOk, HeadersReadOnly;
    assert caps'[k] == caps'[..|caps|][k] == caps[k];
    if k + 1 < |caps| {
      assert caps'[k + 1] == caps'[..|caps|][k + 1] == caps[k + 1];
      Ascending(caps', k + 1, |caps|);
      if k + 1 < |caps| - 1 {
        Ascending(caps, k + 1, |caps| - 1);
      }
    }
  }

  // Guest writes.

  /** What the bus does with a write of any length. */
  function GuestStep(c: Config, a: Access): (c': Config)
    requires Shape(c) && a.reg < NUM_CONFIGURATION_REGISTERS
    ensures Shape(c')
  {
    if a.offset + a.length > 4 then c
    else if a.length == 4 then BusWrite(c, a.reg, a.value).0
    else WriteConfig(c, a)
  }

  /** As far as registers go, a guest step is a masked write to one of them. */
  ghost predicate MaskedWrite(c: Config, c': Config, k: nat)
    requires Shape(c) && Shape(c') && k < NUM_CONFIGURATION_REGISTERS
  {
    && c'.wbits == c.wbits && c'.lastCap == c.lastCap
    && (forall i :: 0 <= i < NUM_CONFIGURATION_REGISTERS && i != k ==> c'.regs[i] == c.regs[i])
    && MaskedSame(c.wbits[k], c.regs[k], c'.regs[k])
  }

  lemma GuestStepMasked(c: Config, a: Access)
    requires Shape(c) && a.reg < NUM_CONFIGURATION_REGISTERS
    ensures MaskedWrite(c, GuestStep(c, a), a.reg)
  {
    hide WriteReg, WriteConfig, Detect32, Detect64, Masked, MaskedSame, Wide, Length32;
    GuestWriteMasked(c, a);
    var c1 := Detect(c, a.reg, a.value).0;
    DetectOnlyBars(c, a.reg, a.value);
    WriteRegMasked(c1, a.reg, a.value);
    SameMasked(c.wbits[a.reg], c.regs[a.reg]);
  }

  lemma SameMasked(w: bv32, r: bv32)
    ensures MaskedSame(w, r, r)
  {
  }

  lemma DetectOnlyBars(c: Config, i: nat, value: bv32)
    requires Shape(c) && i < NUM_CONFIGURATION_REGISTERS
    ensures var c' := Detect(c, i, value).0; c' == c.(bars := c'.bars, romAddr := c'.romAddr)
  {
    hide Masked, Wide, Join, Length32, Length64;
  }

  lemma LowBytesKept(w: bv32, r: bv32, r': bv32)
    requires MaskedSame(w, r, r') && w & 0xffff == 0
    ensures RegByte(r', 0) == RegByte(r, 0) && RegByte(r', 1) == RegByte(r, 1)
  {
    assert r' & 0xffff == r & 0xffff by {
      LowHalfKept(w, r, r');
    }
    LowHalfBytes(r);
    LowHalfBytes(r');
    hide RegByte;
  }

  lemma LowHalfKept(w: bv32, r: bv32, r': bv32)
    requires r' & !w == r & !w && w & 0xffff == 0
    ensures r' & 0xffff == r & 0xffff
  {
  }

  lemma LowHalfBytes(r: bv32)
    ensures RegByte(r, 0) == RegByte(r & 0xffff, 0) && RegByte(r, 1) == RegByte(r & 0xffff, 1)
  {
  }

  lemma NothingWritable(r: bv32, r': bv32)
    requires MaskedSame(0, r, r')
    ensures r' == r
  {
  }

  /** A byte that is no guest's to write stays as it is. */
  lemma ByteKept(c: Config, c': Config, k: nat, x: nat)
    requires Shape(c) && Shape(c') && k < NUM_CONFIGURATION_REGISTERS && MaskedWrite(c, c', k) && x < SPACE
    requires c.wbits[x / 4] == 0 || (c.wbits[x / 4] & 0xffff == 0 && x % 4 < 2)
    ensures ByteOf(c', x) == ByteOf(c, x)
  {
    hide MaskedSame, RegByte;
    if x / 4 == k {
      if c.wbits[k] == 0 {
        NothingWritable(c.regs[k], c'.regs[k]);
      } else {
        LowBytesKept(c.wbits[k], c.regs[k], c'.regs[k]);
      }
    }
  }

  lemma GuestKeepsLinks(c: Config, c': Config, caps: seq<Cap>, reg: nat)
    requires CapsOk(c, caps) && Shape(c') && reg < NUM_CONFIGURATION_REGISTERS && MaskedWrite(c, c', reg)
    ensures LinkedOk(c', caps)
  {
    hide ByteOf, MaskedSame, NextDword, PtrTo, PayloadOk, MaskedWrite;
    ByteKept(c, c', reg, CAPABILITY_LIST_HEAD_OFFSET);
    forall k | 0 <= k < |caps|
      ensures ByteOf(c', caps[k].offset) == ByteOf(c, caps[k].offset)
      ensures ByteOf(c', caps[k].offset + 1) == ByteOf(c, caps[k].offset + 1)
    {
      HeaderPlace(caps[k].offset);
      ByteKept(c, c', reg, caps[k].offset);
      ByteKept(c, c', reg, caps[k].offset + 1);
    }
  }

  lemma HeaderPlace(offset: nat)
    requires offset % 4 == 0 && FIRST_CAPABILITY_OFFSET <= offset < CAPABILITY_MAX_OFFSET
    ensures FIRST_CAPABILITY_OFFSET / 4 <= offset / 4 < 64 && (offset + 1) / 4 == offset / 4 && (offset + 1) % 4 == 1
  {
  }

  lemma GuestKeepsPayload(c: Config, c': Config, caps: seq<Cap>, reg: nat)
    requires CapsOk(c, caps) && Shape(c') && reg < NUM_CONFIGURATION_REGISTERS && MaskedWrite(c, c', reg)
    ensures PayloadOk(c', caps)
  {
    hide ByteOf, MaskedSame, NextDword, LinkedOk, HeadersReadOnly;
    forall k, i | 0 <= k < |caps| && 0 <= i < |caps[k].payload| && Own(caps, k, i)
      ensures c'.wbits[(caps[k].offset + 2 + i) / 4] == 0 ==> ByteOf(c', caps[k].offset + 2 + i) == caps[k].payload[i]
    {
      if c.wbits[(caps[k].offset + 2 + i) / 4] == 0 {
        ByteKept(c, c', reg, caps[k].offset + 2 + i);
      }
    }
  }

  /** No guest write changes an id, a pointer or a read-only payload byte of the list. */
  lemma GuestKeepsCaps(c: Config, caps: seq<Cap>, a: Access)
    requires CapsOk(c, caps) && a.reg < NUM_CONFIGURATION_REGISTERS
    ensures CapsOk(GuestStep(c, a), caps)
  {
    hide GuestStep, LinkedOk, PayloadOk, PlacedOk, MaskedSame;
    GuestStepMasked(c, a);
    GuestKeepsLinks(c, GuestStep(c, a), caps, a.reg);
    GuestKeepsPayload(c, GuestStep(c, a), caps, a.reg);
  }

  // Walking the list.

  /** The offsets a guest finds, following pointers from `p` for at most `fuel` steps. */
  function Walk(c: Config, p: nat, fuel: nat): seq<nat>
    requires Shape(c) && p < 256
    decreases fuel
  {
    if p == 0 || fuel == 0 then [] else [p] + Walk(c, ByteOf(c, p + 1) as nat, fuel - 1)
  }

  function Offsets(caps: seq<Cap>): seq<nat> {
    seq(|caps|, k requires 0 <= k < |caps| => caps[k].offset)
  }

  lemma {:induction false} WalkFrom(c: Config, caps: seq<Cap>, k: nat, fuel: nat)
    requires CapsOk(c, caps) && k <= |caps| && |caps| - k < fuel
    ensures Walk(c, PtrTo(caps, k) as nat, fuel) == Offsets(caps)[k..]
    decreases |caps| - k
  {
    hide ByteOf, PtrTo, NextDword, PayloadOk, HeadersReadOnly;
    PtrToBack(caps, k);
    if k < |caps| {
      WalkFrom(c, caps, k + 1, fuel - 1);
      assert ByteOf(c, caps[k].offset + 1) == PtrTo(caps, k + 1);
      assert Offsets(caps)[k..] == [caps[k].offset] + Offsets(caps)[k + 1..];
    }
  }

  lemma PtrToBack(caps: seq<Cap>, k: nat)
    requires PlacedOk(caps)
    ensures PtrTo(caps, k) as nat == if k < |caps| then caps[k].offset else 0
  {
    hide NextDword, Ptr;
    if k < |caps| {
      PtrBack(caps[k].offset);
    }
  }

  /** Walking from the head visits exactly the capabilities added, in order, and ends at a zero pointer. */
  lemma WalkVisitsAll(c: Config, caps: seq<Cap>, fuel: nat)
    requires CapsOk(c, caps) && |caps| < fuel
    ensures Walk(c, ByteOf(c, CAPABILITY_LIST_HEAD_OFFSET) as nat, fuel) == Offsets(caps)
  {
    hide ByteOf, Ptr, NextDword, PayloadOk, HeadersReadOnly;
    WalkFrom(c, caps, 0, fuel);
    assert Offsets(caps)[0..] == Offsets(caps);
  }

  // Whole runs.

  datatype Event = Guest(a: Access) | Add(id: bv8, payload: seq<bv8>)

  predicate EventOk(e: Event) {
    e.Guest? ==> e.a.reg < NUM_CONFIGURATION_REGISTERS
  }

  /** The configuration after the events, and the capabilities that were accepted. */
  function RunEvents(c: Config, caps: seq<Cap>, es: seq<Event>): (r: (Config, seq<Cap>))
    requires Shape(c) && forall k :: 0 <= k < |es| ==> EventOk(es[k])
    ensures Shape(r.0)
  {
    if es == [] then (c, caps) else
    var n := |es| - 1;
    var (c1, caps1) := RunEvents(c, caps, es[..n]);
    assert EventOk(es[n]);
    match es[n]
    case Guest(a) => (GuestStep(c1, a), caps1)
    case Add(id, payload) =>
      var (c2, e) := AddCapability(c1, id, payload);
      (c2, if e.None? then caps1 + [Cap(CapPlace(c1).0, id, payload)] else caps1)
  }

  /** Over every run of additions and guest writes the list is intact. */
  lemma {:induction false} ListIntact(c: Config, caps: seq<Cap>, es: seq<Event>)
    requires Shape(c) && CapsOk(c, caps) && forall k :: 0 <= k < |es| ==> EventOk(es[k])
    ensures var (c', caps') := RunEvents(c, caps, es);
            && CapsOk(c', caps')
            && Walk(c', ByteOf(c', CAPABILITY_LIST_HEAD_OFFSET) as nat, |caps'| + 1) == Offsets(caps')
  {
    hide CapsOk, GuestStep, ByteOf;
    if es != [] {
      var n := |es| - 1;
      ListIntact(c, caps, es[..n]);
      var (c1, caps1) := RunEvents(c, caps, es[..n]);
      assert EventOk(es[n]);
      match es[n] {
        case Guest(a) => GuestKeepsCaps(c1, caps1, a);
        case Add(id, payload) =>
          if AddCapability(c1, id, payload).1.None? {
            CapAdded(c1, caps1, id, payload);
          }
      }
    }
    var (c', caps') := RunEvents(c, caps, es);
    WalkVisitsAll(c', caps', |caps'| + 1);
  }
}
