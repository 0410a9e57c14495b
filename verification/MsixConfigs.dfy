/** The MSI-X state of a device, updated in place by guest writes and device signals. */
module MsixConfigs {
  import opened PendingWords
  import opened Wrappers
  import opened MsixTables

  class MsixConfig {
    var tableEntries: seq<Entry>
    var pbaEntries: seq<bv64>
    var masked: bool
    var enabled: bool
    var group: Group  // the interrupt source group; updates of routes succeed

    ghost function View(): Msix
      reads this
    {
      Msix(tableEntries, pbaEntries, masked, enabled, group)
    }

    ghost predicate Valid()
      reads this
    {
      Shape(View())
    }

    constructor (vectors: nat)
      requires vectors <= MAX_MSIX_VECTORS_PER_DEVICE
      ensures Valid() && AllOk(View()) && |tableEntries| == vectors
      ensures forall v :: 0 <= v < vectors ==> !IsPending(View(), v) && VectorMasked(tableEntries[v])
    {
      tableEntries := seq(vectors, _ => Entry(0, 0, 0, 1));
      pbaEntries := seq(vectors / BITS_PER_PBA_ENTRY + 1, _ => 0);
      masked, enabled := true, false;
      group := Group(seq(vectors, _ => None), seq(vectors, _ => false), []);
      new;
      NoneWaiting(View());
    }

    /** `set_msg_ctl`. */
    method SetMessageControl(reg: bv16)
      requires Valid()
      modifies this
      ensures Valid() && View() == SetMsgCtl(old(View()), reg)
    {
      hide FunctionMask, EnableBit, VectorMasked, Inject, IsPending, Update;
      var oldMasked, oldEnabled := masked, enabled;
      ghost var s := View();
      masked := FunctionMask(reg);
      enabled := EnableBit(reg);
      // Every vector gets the route its entry now stands for.
      if oldMasked != masked || oldEnabled != enabled {
        if enabled && !masked {
          ghost var before := group;
          for idx := 0 to |tableEntries|
            invariant tableEntries == s.table && pbaEntries == s.pba && masked == FunctionMask(reg)
            invariant enabled == EnableBit(reg) && group == UpdateAll(before, s.table, idx)
          {
            group := Update(group, idx, tableEntries[idx], VectorMasked(tableEntries[idx]));
          }
        } else if oldEnabled || !oldMasked {
          group := SetAll(group, false);
        }
      }
      // The function mask was just cleared: look for messages that waited for it.
      if oldMasked && !masked {
        ghost var s1 := View();
        for index := 0 to |tableEntries|
          invariant Valid() && tableEntries == s1.table && View() == InjectAll(s1, index)
        {
          var waiting := GetPbaBit(index);
          if !VectorMasked(tableEntries[index]) && waiting {
            InjectAndClear(index);
          }
        }
      }
    }

    method GetPbaBit(vector: nat) returns (b: bool)
      requires Valid() && vector < |tableEntries|
      ensures b == IsPending(View(), vector)
    {
      return TestMask(pbaEntries[vector / BITS_PER_PBA_ENTRY], Position(vector));
    }

    /** `set_pba_bit`. */
    method SetPbaBit(vector: nat, reset: bool)
      requires Valid() && vector < |tableEntries|
      modifies this`pbaEntries
      ensures Valid() && pbaEntries == SetPending(old(pbaEntries), vector, reset)
    {
      var index := vector / BITS_PER_PBA_ENTRY;
      var word := pbaEntries[index];
      pbaEntries := pbaEntries[index := if reset then Cleared(word, Position(vector))
                               else Raised(word, Position(vector))];
    }

    method InjectAndClear(vector: nat)
      requires Valid() && vector < |tableEntries|
      modifies this`pbaEntries, this`group
      ensures Valid() && View() == Inject(old(View()), vector)
    {
      group := group.(log := group.log + [vector]);
      SetPbaBit(vector, true);
    }

    /** `write_table`. */
    method WriteTableEntry(offset: nat, length: nat, value: bv64)
      requires Valid() && offset / MSIX_TABLE_ENTRIES_MODULO < |tableEntries| && (length == 4 || length == 8)
      modifies this
      ensures Valid() && View() == WriteTable(old(View()), offset, length, value)
    {
      hide VectorMasked, Inject, IsPending, LowHalf, HighHalf;
      var index, at := offset / MSIX_TABLE_ENTRIES_MODULO, offset % MSIX_TABLE_ENTRIES_MODULO;
      var before := tableEntries[index];
      var entry := before;
      var control := false;
      if length == 4 {
        if at == 0 {
          entry := entry.(lo := LowHalf(value));
        } else if at == 4 {
          entry := entry.(hi := LowHalf(value));
        } else if at == 8 {
          entry := entry.(data := LowHalf(value));
        } else if at == 12 {
          control := true;
          entry := entry.(ctl := LowHalf(value));
        }
      } else if at == 0 {
        entry := entry.(lo := LowHalf(value), hi := HighHalf(value));
      } else if at == 8 {
        control := true;
        entry := entry.(data := LowHalf(value), ctl := HighHalf(value));
      }
      SameMask(before, at, length, value);
      tableEntries := tableEntries[index := entry];
      // The route follows the entry.
      if enabled && !masked {
        group := Update(group, index, entry, VectorMasked(entry));
      }
      // A mask bit that went from 1 to 0 lets a waiting message through.
      if control {
        var waiting := GetPbaBit(index);
        if !masked && VectorMasked(before) && !VectorMasked(entry) && waiting {
          InjectAndClear(index);
        }
      }
    }

    /** What the device does to interrupt the guest. */
    method SignalVector(vector: nat)
      requires Valid() && vector < |tableEntries|
      modifies this`pbaEntries, this`group
      ensures Valid() && View() == Signal(old(View()), vector)
    {
      if masked || VectorMasked(tableEntries[vector]) {
        SetPbaBit(vector, false);
        return;
      }
      group := group.(log := group.log + [vector]);
    }

    /** `set_state`. */
    method SetState(table: seq<Entry>, pba: seq<bv64>, masked0: bool, enabled0: bool)
      requires Valid() && |table| == |tableEntries| && |pba| == |pbaEntries|
      modifies this
      ensures Valid() && View() == Restore(old(View()), table, pba, masked0, enabled0)
    {
      hide VectorMasked, Update;
      tableEntries, pbaEntries, masked, enabled := table, pba, masked0, enabled0;
      if enabled && !masked {
        ghost var before := group;
        for idx := 0 to |tableEntries|
          invariant tableEntries == table && pbaEntries == pba && masked == masked0 && enabled == enabled0
          invariant |before.routes| == |before.registered| == |table| && group == RestoreAll(before, table, idx)
        {
          if !VectorMasked(tableEntries[idx]) {
            group := Update(group, idx, tableEntries[idx], masked);
            group := SetAll(group, true);
          }
        }
      }
    }
  }

  /** Only a write to the control word of an entry changes its mask. */
  lemma SameMask(e: Entry, at: nat, length: nat, value: bv64)
    ensures (length == 4 && at != 12) || (length != 4 && at != 8) ==> EntryWritten(e, at, length, value).ctl == e.ctl
    ensures (length == 4 && at != 12) || (length != 4 && at != 8) ==>
              VectorMasked(EntryWritten(e, at, length, value)) == VectorMasked(e)
  {
    hide LowHalf, HighHalf;
  }

  lemma NoneWaiting(s: Msix)
    requires Shape(s) && forall i :: 0 <= i < |s.pba| ==> s.pba[i] == 0
    requires s.masked && !s.enabled && forall v :: 0 <= v < |s.table| ==> s.table[v] == Entry(0, 0, 0, 1)
    ensures RoutedOk(s) && PendingOk(s)
    ensures forall v :: 0 <= v < |s.table| ==> !IsPending(s, v) && VectorMasked(s.table[v])
  {
    forall v | 0 <= v < |s.table|
      ensures !IsPending(s, v)
    {
      ZeroWord(Position(v));
    }
    assert VectorMasked(Entry(0, 0, 0, 1));
    hide VectorMasked, TestMask, Position;
  }

  lemma ZeroWord(a: bv6)
    ensures !TestMask(0, a)
  {
  }
}
