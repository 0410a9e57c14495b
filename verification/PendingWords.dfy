/** Single bits of a 64-bit word. */
module PendingWords {
  function BitMask(a: bv6): bv64 {
    (1 as bv64) << (a as bv7)
  }

  predicate TestMask(w: bv64, a: bv6) {
    (w >> (a as bv7)) & 1 == 1
  }

  function Raised(w: bv64, a: bv6): bv64 {
    w | BitMask(a)
  }

  function Cleared(w: bv64, a: bv6): bv64 {
    w & !BitMask(a)
  }

  lemma RaisedAt(w: bv64, a: bv6, b: bv6)
    ensures TestMask(Raised(w, a), b) <==> a == b || TestMask(w, b)
  {
    hide TestMask, BitMask;
    MasksJoin(w, BitMask(a), b);
    MaskBit(a, b);
  }

  lemma ClearedAt(w: bv64, a: bv6, b: bv6)
    ensures TestMask(Cleared(w, a), b) <==> a != b && TestMask(w, b)
  {
    hide TestMask, BitMask;
    MasksJoin(w, BitMask(a), b);
    MaskBit(a, b);
  }

  lemma MasksJoin(w: bv64, m: bv64, b: bv6)
    ensures TestMask(w | m, b) <==> TestMask(w, b) || TestMask(m, b)
    ensures TestMask(w & !m, b) <==> TestMask(w, b) && !TestMask(m, b)
  {
  }

  lemma MaskBit(a: bv6, b: bv6)
    ensures TestMask(BitMask(a), b) <==> a == b
  {
  }
}
