/**
 * MSI-X (section 6.8 of the PCI Local Bus specification 3.0): the vector table, the pending bits,
 * and the interrupt routes installed in the hypervisor.
 */
module MsixTables {
  import opened ByteValues
  import opened PendingWords
  import opened Wrappers

  const MAX_MSIX_VECTORS_PER_DEVICE: nat := 2048
  const MSIX_TABLE_ENTRIES_MODULO: nat := 16
  const BITS_PER_PBA_ENTRY: nat := 64

  datatype Entry = Entry(lo: bv32, hi: bv32, data: bv32, ctl: bv32)

  predicate VectorMasked(e: Entry) {
    e.ctl & 1 == 1
  }

  /** Where the messages of a vector go. */
  datatype Route = Route(hi: bv32, lo: bv32, data: bv32)

  function RouteOf(e: Entry): Route {
    Route(e.hi, e.lo, e.data)
  }

  // The interrupt group.

  datatype Installed = Installed(route: Route, masked: bool)

  /** For every vector its route, and whether its event is registered; `log` are the vectors triggered. */
  datatype Group = Group(routes: seq<Option<Installed>>, registered: seq<bool>, log: seq<nat>)

  function Update(g: Group, v: nat, e: Entry, masked: bool): (g': Group)
    requires v < |g.routes| == |g.registered|
    ensures |g'.routes| == |g.routes| && |g'.registered| == |g.registered|
  {
    g.(routes := g.routes[v := Some(Installed(RouteOf(e), masked))], registered := g.registered[v := !masked])
  }

  function SetAll(g: Group, on: bool): Group {
    g.(registered := seq(|g.registered|, _ => on))
  }

  /** The routes of the first `k` vectors follow the table. */
  function UpdateAll(g: Group, table: seq<Entry>, k: nat): (g': Group)
    requires k <= |table| == |g.routes| == |g.registered|
    ensures |g'.routes| == |g.routes| && |g'.registered| == |g.registered|
  {
    if k == 0 then g
    else Update(UpdateAll(g, table, k - 1), k - 1, table[k - 1], VectorMasked(table[k - 1]))
  }

  /** After a restore only the vectors that are not masked get a route. */
  function RestoreAll(g: Group, table: seq<Entry>, k: nat): (g': Group)
    requires k <= |table| == |g.routes| == |g.registered|
    ensures |g'.routes| == |g.routes| && |g'.registered| == |g.registered|
  {
    if k == 0 then g
    else if VectorMasked(table[k - 1]) then RestoreAll(g, table, k - 1)
    else SetAll(Update(RestoreAll(g, table, k - 1), k - 1, table[k - 1], false), true)
  }

  // Pending bits.

  /** The position of a vector within its word. */
  function Position(v: nat): bv6 {
    (v % BITS_PER_PBA_ENTRY) as bv6
  }

  lemma PositionsDiffer(u: nat, v: nat)
    requires u / BITS_PER_PBA_ENTRY == v / BITS_PER_PBA_ENTRY
    ensures Position(u) == Position(v) <==> u == v
  {
    BitPosition(u % BITS_PER_PBA_ENTRY);
    BitPosition(v % BITS_PER_PBA_ENTRY);
  }

  predicate Pending(pba: seq<bv64>, v: nat)
    requires v / BITS_PER_PBA_ENTRY < |pba|
  {
    TestMask(pba[v / BITS_PER_PBA_ENTRY], Position(v))
  }

  /** `set_pba_bit`. */
  function SetPending(pba: seq<bv64>, v: nat, reset: bool): (p: seq<bv64>)
    requires v / BITS_PER_PBA_ENTRY < |pba|
    ensures |p| == |pba|
  {
    var i := v / BITS_PER_PBA_ENTRY;
    pba[i := if reset then Cleared(pba[i], Position(v)) else Raised(pba[i], Position(v))]
  }

  /** Setting or clearing a pending bit changes no other. */
  lemma SetPendingAt(pba: seq<bv64>, v: nat, reset: bool, u: nat)
    requires v / BITS_PER_PBA_ENTRY < |pba| && u / BITS_PER_PBA_ENTRY < |pba|
    ensures Pending(SetPending(pba, v, reset), u) <==> if u == v then !reset else Pending(pba, u)
  {
    hide Position, TestMask, Raised, Cleared;
    if u / BITS_PER_PBA_ENTRY == v / BITS_PER_PBA_ENTRY {
      PositionsDiffer(u, v);
      RaisedAt(pba[v / BITS_PER_PBA_ENTRY], Position(v), Position(u));
      ClearedAt(pba[v / BITS_PER_PBA_ENTRY], Position(v), Position(u));
    }
  }

  // The function.

  datatype Msix = Msix(table: seq<Entry>, pba: seq<bv64>, masked: bool, enabled: bool, group: Group)

  ghost predicate Shape(s: Msix) {
    && |s.group.routes| == |s.table| && |s.group.registered| == |s.table| && |s.table| <= MAX_MSIX_VECTORS_PER_DEVICE
    && |s.pba| == |s.table| / BITS_PER_PBA_ENTRY + 1
  }

  lemma WordExists(s: Msix, v: nat)
    requires Shape(s) && v < |s.table|
    ensures v / BITS_PER_PBA_ENTRY < |s.pba|
  {
  }

  /** `inject_msix_and_clear_pba`. */
  function Inject(s: Msix, v: nat): (s': Msix)
    requires Shape(s) && v < |s.table|
    ensures Shape(s')
  {
    WordExists(s, v);
    s.(group := s.group.(log := s.group.log + [v]), pba := SetPending(s.pba, v, true))
  }

  predicate IsPending(s: Msix, v: nat)
    requires Shape(s) && v < |s.table|
  {
    WordExists(s, v);
    Pending(s.pba, v)
  }

  /** The vectors of the pending messages, of the first `k` those that are not masked, are triggered. */
  function InjectAll(s: Msix, k: nat): (s': Msix)
    requires Shape(s) && k <= |s.table|
    ensures Shape(s') && s'.table == s.table
  {
    if k == 0 then s else
    var s1 := InjectAll(s, k - 1);
    if !VectorMasked(s.table[k - 1]) && IsPending(s1, k - 1) then Inject(s1, k - 1) else s1
  }

  predicate FunctionMask(reg: bv16) {
    (reg >> 14) & 1 == 1
  }

  predicate EnableBit(reg: bv16) {
    (reg >> 15) & 1 == 1
  }

  /** The routes after the control bits changed. */
  function Rerouted(s: Msix, masked: bool, enabled: bool): (g: Group)
    requires Shape(s)
    ensures |g.routes| == |s.table| && |g.registered| == |s.table|
  {
    if s.masked == masked && s.enabled == enabled then s.group
    else if enabled && !masked then UpdateAll(s.group, s.table, |s.table|)
    else if s.enabled || !s.masked then SetAll(s.group, false)
    else s.group
  }

  /** `set_msg_ctl`. */
  function SetMsgCtl(s: Msix, reg: bv16): (s': Msix)
    requires Shape(s)
    ensures Shape(s')
  {
    var masked, enabled := FunctionMask(reg), EnableBit(reg);
    var s1 := s.(masked := masked, enabled := enabled, group := Rerouted(s, masked, enabled));
    if s.masked && !masked then InjectAll(s1, |s1.table|) else s1
  }

  function LowHalf(v: bv64): bv32 {
    (v & 0xffff_ffff) as bv32
  }

  function HighHalf(v: bv64): bv32 {
    (v >> 32) as bv32
  }

  /** A table entry after a write of `length` bytes at `at` within it. */
  function EntryWritten(e: Entry, at: nat, length: nat, value: bv64): Entry {
    if length == 4 then
      if at == 0 then e.(lo := LowHalf(value))
      else if at == 4 then e.(hi := LowHalf(value))
      else if at == 8 then e.(data := LowHalf(value))
      else if at == 12 then e.(ctl := LowHalf(value))
      else e
    else if at == 0 then e.(lo := LowHalf(value), hi := HighHalf(value))
    else if at == 8 then e.(data := LowHalf(value), ctl := HighHalf(value))
    else e
  }

  /** `write_table`. */
  function WriteTable(s: Msix, offset: nat, length: nat, value: bv64): (s': Msix)
    requires Shape(s) && offset / MSIX_TABLE_ENTRIES_MODULO < |s.table| && (length == 4 || length == 8)
    ensures Shape(s')
  {
    var v, at := offset / MSIX_TABLE_ENTRIES_MODULO, offset % MSIX_TABLE_ENTRIES_MODULO;
    var e := EntryWritten(s.table[v], at, length, value);
    var s1 := s.(table := s.table[v := e],
                 group := if s.enabled && !s.masked then Update(s.group, v, e, VectorMasked(e)) else s.group);
    if !s.masked && VectorMasked(s.table[v]) && !VectorMasked(e) && IsPending(s1, v) then Inject(s1, v) else s1
  }

  /** A signal of the device: pending while masked, else the vector is triggered at once. */
  function Signal(s: Msix, v: nat): (s': Msix)
    requires Shape(s) && v < |s.table|
    ensures Shape(s')
  {
    WordExists(s, v);
    if s.masked || VectorMasked(s.table[v]) then s.(pba := SetPending(s.pba, v, false))
    else s.(group := s.group.(log := s.group.log + [v]))
  }

  /** `set_state`: table, pending bits and control bits come from a snapshot. */
  function Restore(s: Msix, table: seq<Entry>, pba: seq<bv64>, masked: bool, enabled: bool): (s': Msix)
    requires Shape(s) && |table| == |s.table| && |pba| == |s.pba|
    ensures Shape(s')
  {
    Msix(table, pba, masked, enabled,
         if enabled && !masked then RestoreAll(s.group, table, |table|) else s.group)
  }

  // What holds at all times.

  /** While MSI-X is on, messages of every vector that is not masked go where its table entry says. */
  ghost predicate RoutedOk(s: Msix)
    requires Shape(s)
  {
    s.enabled && !s.masked ==>
      forall v :: 0 <= v < |s.table| && !VectorMasked(s.table[v]) ==>
        s.group.routes[v] == Some(Installed(RouteOf(s.table[v]), false)) && s.group.registered[v]
  }

  /** While MSI-X is off or masked, no event of a vector is registered. */
  ghost predicate OffOk(s: Msix)
    requires Shape(s)
  {
    !(s.enabled && !s.masked) ==> NoneRegistered(s.group)
  }

  predicate NoneRegistered(g: Group) {
    forall v :: 0 <= v < |g.registered| ==> !g.registered[v]
  }

  /** A trigger of vector `v` reaches the guest: its event is registered, with the route of its current entry. */
  predicate Connected(s: Msix, v: nat)
    requires v < |s.table| == |s.group.routes| == |s.group.registered|
  {
    s.group.registered[v] && s.group.routes[v] == Some(Installed(RouteOf(s.table[v]), false))
  }

  /** Nothing is pending that could be triggered. */
  ghost predicate PendingOk(s: Msix)
    requires Shape(s)
  {
    !s.masked ==> forall v :: 0 <= v < |s.table| && !VectorMasked(s.table[v]) ==> !IsPending(s, v)
  }

  function Times(log: seq<nat>, v: nat): nat {
    if log == [] then 0 else Times(log[..|log| - 1], v) + if log[|log| - 1] == v then 1 else 0
  }

  function Waiting(s: Msix, v: nat): nat
    requires Shape(s) && v < |s.table|
  {
    if IsPending(s, v) then 1 else 0
  }

  lemma TimesMore(log: seq<nat>, u: nat, v: nat)
    ensures Times(log + [u], v) == Times(log, v) + if u == v then 1 else 0
  {
    assert (log + [u])[..|log|] == log;
  }

  /** A message stops waiting only by its vector being triggered, exactly once. */
  ghost predicate TriggeredOnce(s: Msix, s': Msix, v: nat)
    requires Shape(s) && Shape(s') && |s'.table| == |s.table| && v < |s.table|
  {
    && Times(s'.group.log, v) + Waiting(s', v) == Times(s.group.log, v) + Waiting(s, v)
    && Waiting(s', v) <= Waiting(s, v)
  }

  lemma InjectAt(s: Msix, u: nat, v: nat)
    requires Shape(s) && u < |s.table| && v < |s.table| && IsPending(s, u)
    ensures IsPending(Inject(s, u), v) <==> u != v && IsPending(s, v)
    ensures TriggeredOnce(s, Inject(s, u), v)
  {
    hide Pending, SetPending;
    WordExists(s, u);
    WordExists(s, v);
    SetPendingAt(s.pba, u, true, v);
    TimesMore(s.group.log, u, v);
  }

  lemma {:induction false} InjectAllAt(s: Msix, k: nat, v: nat)
    requires Shape(s) && k <= |s.table| && v < |s.table|
    ensures var s' := InjectAll(s, k);
            && s' == s.(pba := s'.pba, group := s'.group)
            && s'.group == s.group.(log := s'.group.log)
            && TriggeredOnce(s, s', v)
            && (IsPending(s', v) <==> IsPending(s, v) && !(v < k && !VectorMasked(s.table[v])))
  {
    hide Inject, IsPending, VectorMasked, Times;
    if k > 0 {
      InjectAllAt(s, k - 1, v);
      InjectAllAt(s, k - 1, k - 1);
      var s1 := InjectAll(s, k - 1);
      if !VectorMasked(s.table[k - 1]) && IsPending(s1, k - 1) {
        InjectAt(s1, k - 1, v);
        InjectFields(s1, k - 1);
      }
    }
  }

  lemma InjectFields(s: Msix, v: nat)
    requires Shape(s) && v < |s.table|
    ensures var s' := Inject(s, v);
            s' == s.(pba := s'.pba, group := s'.group) && s'.group == s.group.(log := s'.group.log)
  {
    hide SetPending;
  }

  lemma {:induction false} UpdateAllAt(g: Group, table: seq<Entry>, k: nat, v: nat)
    requires k <= |table| == |g.routes| == |g.registered| && v < |table|
    ensures var g' := UpdateAll(g, table, k);
            && g'.log == g.log
            && (v < k ==> g'.routes[v] == Some(Installed(RouteOf(table[v]), VectorMasked(table[v])))
                          && g'.registered[v] == !VectorMasked(table[v]))
  {
    hide VectorMasked, RouteOf;
    if k > 0 {
      UpdateAllAt(g, table, k - 1, v);
    }
  }

  lemma {:induction false} RestoreAllAt(g: Group, table: seq<Entry>, k: nat, v: nat)
    requires k <= |table| == |g.routes| == |g.registered| && v < |table|
    ensures var g' := RestoreAll(g, table, k);
            && g'.log == g.log
            && (v < k && !VectorMasked(table[v]) ==>
                  g'.routes[v] == Some(Installed(RouteOf(table[v]), false)) && g'.registered[v])
  {
    hide VectorMasked, RouteOf;
    if k > 0 {
      RestoreAllAt(g, table, k - 1, v);
    }
  }

  // Step by step.

  lemma SetMsgCtlKeeps(s: Msix, reg: bv16)
    requires Shape(s) && RoutedOk(s) && PendingOk(s)
    ensures var s' := SetMsgCtl(s, reg);
            && |s'.table| == |s.table| && RoutedOk(s') && PendingOk(s')
            && (forall v :: 0 <= v < |s.table| ==> TriggeredOnce(s, s', v))
  {
    hide FunctionMask, EnableBit, VectorMasked, IsPending, Times, UpdateAll, InjectAll;
    var s' := SetMsgCtl(s, reg);
    var masked, enabled := FunctionMask(reg), EnableBit(reg);
    var s1 := s.(masked := masked, enabled := enabled, group := Rerouted(s, masked, enabled));
    forall v | 0 <= v < |s.table|
      ensures TriggeredOnce(s, s', v)
      ensures enabled && !masked && !VectorMasked(s.table[v]) ==>
                s'.group.routes[v] == Some(Installed(RouteOf(s.table[v]), false)) && s'.group.registered[v]
      ensures !masked && !VectorMasked(s.table[v]) ==> !IsPending(s', v)
      ensures s'.table == s.table && s'.masked == masked && s'.enabled == enabled
    {
      UpdateAllAt(s.group, s.table, |s.table|, v);
      SamePending(s, s1, v);
      InjectAllAt(s1, |s1.table|, v);
    }
    if s.table == [] {
      EmptyTable(s1);
    }
  }

  lemma SamePending(s: Msix, s': Msix, v: nat)
    requires Shape(s) && Shape(s') && s'.pba == s.pba && |s'.table| == |s.table| && v < |s.table|
    ensures IsPending(s', v) <==> IsPending(s, v)
  {
  }

  lemma EmptyTable(s: Msix)
    requires Shape(s) && s.table == []
    ensures InjectAll(s, |s.table|) == s
  {
  }

  lemma WriteTableKeeps(s: Msix, offset: nat, length: nat, value: bv64)
    requires Shape(s) && RoutedOk(s) && PendingOk(s)
    requires offset / MSIX_TABLE_ENTRIES_MODULO < |s.table| && (length == 4 || length == 8)
    ensures var s' := WriteTable(s, offset, length, value);
            && |s'.table| == |s.table| && RoutedOk(s') && PendingOk(s')
            && (forall v :: 0 <= v < |s.table| ==> TriggeredOnce(s, s', v))
  {
    hide VectorMasked, IsPending, Times, EntryWritten, Inject;
    var s' := WriteTable(s, offset, length, value);
    var u, at := offset / MSIX_TABLE_ENTRIES_MODULO, offset % MSIX_TABLE_ENTRIES_MODULO;
    var e := EntryWritten(s.table[u], at, length, value);
    var s1 := s.(table := s.table[u := e],
                 group := if s.enabled && !s.masked then Update(s.group, u, e, VectorMasked(e)) else s.group);
    SamePending(s, s1, u);
    InjectFields(s1, u);
    forall v | 0 <= v < |s.table|
      ensures TriggeredOnce(s, s', v)
      ensures !s.masked && !VectorMasked(s1.table[v]) ==> !IsPending(s', v)
    {
      SamePending(s, s1, v);
      if IsPending(s1, u) {
        InjectAt(s1, u, v);
      }
    }
  }

  lemma SignalKeeps(s: Msix, u: nat)
    requires Shape(s) && RoutedOk(s) && PendingOk(s) && u < |s.table|
    ensures var s' := Signal(s, u);
            && |s'.table| == |s.table| && RoutedOk(s') && PendingOk(s')
            && (forall v :: 0 <= v < |s.table| ==>
                  Times(s'.group.log, v) + Waiting(s', v) ==
                  Times(s.group.log, v) + Waiting(s, v) + if v == u && Waiting(s, v) == 0 then 1 else 0)
  {
    hide VectorMasked, Times, Pending, SetPending;
    var s' := Signal(s, u);
    WordExists(s, u);
    forall v | 0 <= v < |s.table|
      ensures IsPending(s', v) <==> IsPending(s, v) || (v == u && (s.masked || VectorMasked(s.table[u])))
    {
      WordExists(s, v);
      SetPendingAt(s.pba, u, false, v);
    }
    forall v | 0 <= v < |s.table|
      ensures Times(s.group.log + [u], v) == Times(s.group.log, v) + if u == v then 1 else 0
    {
      TimesMore(s.group.log, u, v);
    }
  }

  lemma RestoreKeeps(s: Msix, table: seq<Entry>, pba: seq<bv64>, masked: bool, enabled: bool)
    requires Shape(s) && |table| == |s.table| && |pba| == |s.pba|
    requires PendingOk(Msix(table, pba, masked, enabled, s.group))
    ensures var s' := Restore(s, table, pba, masked, enabled);
            RoutedOk(s') && PendingOk(s') && (table != [] ==> s'.group.log == s.group.log)
  {
    hide VectorMasked, IsPending, RestoreAll;
    var s', snap := Restore(s, table, pba, masked, enabled), Msix(table, pba, masked, enabled, s.group);
    if table != [] {
      RestoreAllAt(s.group, table, |table|, 0);
    }
    forall v | 0 <= v < |table|
      ensures IsPending(s', v) <==> IsPending(snap, v)
    {
      SamePending(snap, s', v);
    }
    forall v | 0 <= v < |table| && !VectorMasked(table[v])
      ensures enabled && !masked ==>
                s'.group.routes[v] == Some(Installed(RouteOf(table[v]), false)) && s'.group.registered[v]
    {
      RestoreAllAt(s.group, table, |table|, v);
    }
  }

  // Where a trigger goes.

  /** A control write leaves nothing registered while MSI-X is off. */
  lemma SetMsgCtlOff(s: Msix, reg: bv16)
    requires Shape(s) && OffOk(s)
    ensures OffOk(SetMsgCtl(s, reg))
  {
    hide FunctionMask, EnableBit, InjectAll, UpdateAll;
    var masked, enabled := FunctionMask(reg), EnableBit(reg);
    var s1 := s.(masked := masked, enabled := enabled, group := Rerouted(s, masked, enabled));
    if s1.table == [] {
      EmptyTable(s1);
    } else {
      InjectAllAt(s1, |s1.table|, 0);
    }
  }

  lemma WriteTableOff(s: Msix, offset: nat, length: nat, value: bv64)
    requires Shape(s) && OffOk(s) && offset / MSIX_TABLE_ENTRIES_MODULO < |s.table| && (length == 4 || length == 8)
    ensures OffOk(WriteTable(s, offset, length, value))
  {
    hide VectorMasked, IsPending, EntryWritten, SetPending;
  }

  /** After a restore of a state with MSI-X off, nothing is registered exactly if nothing was before. */
  lemma RestoreOff(s: Msix, table: seq<Entry>, pba: seq<bv64>, masked: bool, enabled: bool)
    requires Shape(s) && |table| == |s.table| && |pba| == |s.pba|
    ensures OffOk(Restore(s, table, pba, masked, enabled)) <==> (enabled && !masked) || NoneRegistered(s.group)
  {
    hide RestoreAll;
  }

  /** Routes follow the table, nothing waits that could be triggered, and nothing is registered while off. */
  ghost predicate AllOk(s: Msix)
    requires Shape(s)
  {
    RoutedOk(s) && PendingOk(s) && OffOk(s)
  }

  /** An event that does not leave old routes behind: a restore with MSI-X off belongs to a fresh device. */
  predicate Orderly(e: Event) {
    e.Reload? ==> e.enabled && !e.masked
  }

  /**
   * Whenever an event triggers a vector, vector and function are not masked, and the trigger reaches the guest
   * by the route of the current entry exactly if MSI-X is enabled.
   */
  lemma TriggersConnected(s: Msix, e: Event, v: nat)
    requires Shape(s) && EventOk(s, e) && Orderly(e) && AllOk(s) && v < |s.table|
    ensures var s' := Step(s, e);
            && AllOk(s')
            && (Times(s'.group.log, v) > Times(s.group.log, v) ==>
                  !s'.masked && !VectorMasked(s'.table[v]) && (Connected(s', v) <==> s'.enabled))
  {
    hide SetMsgCtl, WriteTable, Signal, Restore, PendingOk, Times, IsPending, VectorMasked;
    StepKeeps(s, e, v);
    TriggerUnmasked(s, e, v);
    match e
    case Control(reg) => SetMsgCtlOff(s, reg);
    case TableWrite(offset, length, value) => WriteTableOff(s, offset, length, value);
    case DeviceSignal(u) => SignalOff(s, u);
    case Reload(table, pba, masked, enabled) => RestoreOff(s, table, pba, masked, enabled);
  }

  lemma SignalOff(s: Msix, u: nat)
    requires Shape(s) && OffOk(s) && u < |s.table|
    ensures OffOk(Signal(s, u))
  {
    hide VectorMasked, SetPending;
  }

  /** Only vectors that are not masked are triggered. */
  lemma TriggerUnmasked(s: Msix, e: Event, v: nat)
    requires Shape(s) && EventOk(s, e) && v < |s.table|
    ensures var s' := Step(s, e);
            Times(s'.group.log, v) > Times(s.group.log, v) ==> !s'.masked && !VectorMasked(s'.table[v])
  {
    hide IsPending, VectorMasked, EntryWritten, Times, UpdateAll, RestoreAll, InjectAll, FunctionMask, EnableBit;
    match e
    case Control(reg) =>
      var masked, enabled := FunctionMask(reg), EnableBit(reg);
      var s1 := s.(masked := masked, enabled := enabled, group := Rerouted(s, masked, enabled));
      UpdateAllAt(s.group, s.table, |s.table|, v);
      InjectedUnmasked(s1, |s1.table|, v);
      InjectAllAt(s1, |s1.table|, v);
    case TableWrite(offset, length, value) =>
      TimesMore(s.group.log, offset / MSIX_TABLE_ENTRIES_MODULO, v);
    case DeviceSignal(u) =>
      TimesMore(s.group.log, u, v);
    case Reload(table, pba, masked, enabled) =>
      RestoreAllAt(s.group, table, |table|, v);
  }

  lemma {:induction false} InjectedUnmasked(s: Msix, k: nat, v: nat)
    requires Shape(s) && k <= |s.table| && v < |s.table|
    ensures Times(InjectAll(s, k).group.log, v) > Times(s.group.log, v) ==> !VectorMasked(s.table[v])
  {
    hide IsPending, VectorMasked, Times;
    if k > 0 {
      InjectedUnmasked(s, k - 1, v);
      TimesMore(InjectAll(s, k - 1).group.log, k - 1, v);
    }
  }

  /** Over every orderly run each trigger on the way reaches the guest exactly while MSI-X is enabled. */
  lemma {:induction false} RunConnected(s: Msix, es: seq<Event>, n: nat, v: nat)
    requires Shape(s) && AllOk(s) && v < |s.table| && n < |es|
    requires forall k :: 0 <= k < |es| ==> EventOk(s, es[k]) && Orderly(es[k])
    ensures var (s1, s2) := (Run(s, es[..n]), Run(s, es[..n + 1]));
            && AllOk(s1) && AllOk(s2)
            && (Times(s2.group.log, v) > Times(s1.group.log, v) ==>
                  !s2.masked && !VectorMasked(s2.table[v]) && (Connected(s2, v) <==> s2.enabled))
    decreases n
  {
    hide Step, AllOk, Times, VectorMasked, Connected, EventOk;
    var s1 := Run(s, es[..n]);
    assert es[..n + 1][..n] == es[..n];
    if n > 0 {
      RunConnected(s, es, n - 1, v);
    }
    EventStays(s, s1, es[n]);
    TriggersConnected(s1, es[n], v);
  }

  // Whole runs.

  datatype Event =
    | Control(reg: bv16)
    | TableWrite(offset: nat, length: nat, value: bv64)
    | DeviceSignal(v: nat)
    | Reload(table: seq<Entry>, pba: seq<bv64>, masked: bool, enabled: bool)

  ghost predicate EventOk(s: Msix, e: Event)
    requires Shape(s)
  {
    match e
    case Control(_) => true
    case TableWrite(offset, length, _) =>
      offset / MSIX_TABLE_ENTRIES_MODULO < |s.table| && (length == 4 || length == 8)
    case DeviceSignal(v) => v < |s.table|
    case Reload(table, pba, masked, enabled) =>
      |table| == |s.table| && |pba| == |s.pba| && PendingOk(Msix(table, pba, masked, enabled, s.group))
  }

  /** Whether an event can happen does not depend on the state, only on the number of vectors. */
  lemma EventStays(s: Msix, s': Msix, e: Event)
    requires Shape(s) && Shape(s') && |s'.table| == |s.table| && EventOk(s, e)
    ensures EventOk(s', e)
  {
    hide IsPending, VectorMasked;
    if e.Reload? {
      var was, now := Msix(e.table, e.pba, e.masked, e.enabled, s.group),
      Msix(e.table, e.pba, e.masked, e.enabled, s'.group);
      forall v | 0 <= v < |e.table|
        ensures IsPending(now, v) <==> IsPending(was, v)
      {
        SamePending(was, now, v);
      }
    }
  }

  ghost function Step(s: Msix, e: Event): (s': Msix)
    requires Shape(s) && EventOk(s, e)
    ensures Shape(s') && |s'.table| == |s.table|
  {
    match e
    case Control(reg) => SetMsgCtl(s, reg)
    case TableWrite(offset, length, value) => WriteTable(s, offset, length, value)
    case DeviceSignal(v) => Signal(s, v)
    case Reload(table, pba, masked, enabled) => Restore(s, table, pba, masked, enabled)
  }

  ghost function Run(s: Msix, es: seq<Event>): (s': Msix)
    requires Shape(s) && forall k :: 0 <= k < |es| ==> EventOk(s, es[k])
    ensures Shape(s') && |s'.table| == |s.table|
  {
    if es == [] then s else
    var n := |es| - 1;
    var s1 := Run(s, es[..n]);
    EventStays(s, s1, es[n]);
    Step(s1, es[n])
  }

  /** What an event adds: a signal for `v` counts if none is waiting, a restore trades what waits for what it brings. */
  ghost function Gain(s: Msix, e: Event, v: nat): int
    requires Shape(s) && EventOk(s, e) && v < |s.table|
  {
    match e
    case DeviceSignal(u) => if u == v && Waiting(s, v) == 0 then 1 else 0
    case Reload(_, _, _, _) => Waiting(Step(s, e), v) - Waiting(s, v)
    case _ => 0
  }

  /**
   * What a run adds for `v`: the signals that came while none was waiting (the others merge with the one
   * that waits), and what restores brought.
   */
  ghost function Gains(s: Msix, es: seq<Event>, v: nat): int
    requires Shape(s) && v < |s.table| && forall k :: 0 <= k < |es| ==> EventOk(s, es[k])
  {
    if es == [] then 0 else
    var n := |es| - 1;
    EventStays(s, Run(s, es[..n]), es[n]);
    Gains(s, es[..n], v) + Gain(Run(s, es[..n]), es[n], v)
  }

  lemma StepKeeps(s: Msix, e: Event, v: nat)
    requires Shape(s) && EventOk(s, e) && RoutedOk(s) && PendingOk(s) && v < |s.table|
    ensures var s' := Step(s, e);
            && RoutedOk(s') && PendingOk(s')
            && Times(s'.group.log, v) + Waiting(s', v) == Times(s.group.log, v) + Waiting(s, v) + Gain(s, e, v)
  {
    hide SetMsgCtl, WriteTable, Signal, Restore, RoutedOk, PendingOk, Times, Waiting;
    match e
    case Control(reg) =>
      SetMsgCtlKeeps(s, reg);
      assert TriggeredOnce(s, SetMsgCtl(s, reg), v);
    case TableWrite(offset, length, value) =>
      WriteTableKeeps(s, offset, length, value);
      assert TriggeredOnce(s, WriteTable(s, offset, length, value), v);
    case DeviceSignal(u) => SignalKeeps(s, u);
    case Reload(table, pba, masked, enabled) => RestoreKeeps(s, table, pba, masked, enabled);
  }

  /**
   * Over every run of control writes, table writes, device signals and restores: routes agree with the
   * table, nothing waits that could be triggered, and no interrupt is lost or triggered twice. The triggers
   * plus what still waits are what there was, plus the signals that did not merge with a waiting one, plus
   * what restores brought along. Where a trigger goes is the matter of `RunConnected`.
   */
  lemma {:induction false} InterruptsConserved(s: Msix, es: seq<Event>, v: nat)
    requires Shape(s) && RoutedOk(s) && PendingOk(s) && v < |s.table|
    requires forall k :: 0 <= k < |es| ==> EventOk(s, es[k])
    ensures var s' := Run(s, es);
            && RoutedOk(s') && PendingOk(s')
            && Times(s'.group.log, v) + Waiting(s', v) ==
               Times(s.group.log, v) + Waiting(s, v) + Gains(s, es, v)
  {
    hide Step, RoutedOk, PendingOk, Times, Waiting, Gain, EventOk;
    if es != [] {
      var n := |es| - 1;
      InterruptsConserved(s, es[..n], v);
      var s1 := Run(s, es[..n]);
      EventStays(s, s1, es[n]);
      StepKeeps(s1, es[n], v);
    }
  }
}
