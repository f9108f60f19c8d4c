/** Bytes as integers and as bit-vectors. */
module Octets {

  lemma Successor(v: bv8, d: int)
    requires 0 < d < 256 && v as int == d - 1
    ensures (v + 1) as int == d
  {
  }

  /** A byte taken for a bit-vector and back is the same byte. */
  lemma {:induction false} RoundTrip(d: int)
    requires 0 <= d < 256
    ensures (d as bv8) as int == d
  {
    if d > 0 {
      RoundTrip(d - 1);
      Successor((d - 1) as bv8, d);
    }
  }
}
