/** Small machine integers and their values. */
module ByteValues {
  /** The byte of this value. */
  function ToByte(n: nat): bv8
    requires n < 256
  {
    if n == 0 then 0 else ToByte(n - 1) + 1
  }

  lemma {:induction false} ByteValue(n: nat)
    requires n < 256
    ensures ToByte(n) as nat == n
  {
    if n > 0 {
      ByteValue(n - 1);
      NextByte(ToByte(n - 1));
    }
  }

  lemma NextByte(b: bv8)
    requires b != 255
    ensures (b + 1) as nat == b as nat + 1
  {
  }

  lemma BitPosition(n: nat)
    requires n < 64
    ensures (n as bv6) as nat == n
  {
  }
}
