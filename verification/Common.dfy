/** The comparison macros of quic/common.h and the option type used by every parser. */
module Common {

  datatype Option<+T> = None | Some(value: T)

  const TWO30 := 0x4000_0000
  const TWO31 := 0x8000_0000
  const TWO32 := 0x1_0000_0000
  const TWO62 := 0x4000_0000_0000_0000
  const TWO64 := 0x1_0000_0000_0000_0000

  /** The cast `(int)(x)`: keep the low 32 bits and read them as a signed number. */
  function Trunc32(x: int): (r: int)
    ensures -TWO31 <= r < TWO31
    ensures -TWO31 <= x < TWO31 ==> r == x
    ensures (x - r) % TWO32 == 0
  {
    var m := x % TWO32;
    if m < TWO31 then m else m - TWO32
  }

  /** The macros compare a difference after the cast, so they agree with the integer order
      only for operands less than 2^31 apart. */
  predicate QuicLt(a: int, b: int)
    ensures -TWO31 <= a - b < TWO31 ==> (QuicLt(a, b) <==> a < b)
  { Trunc32(a - b) < 0 }

  predicate QuicGt(a: int, b: int)
    ensures -TWO31 <= a - b < TWO31 ==> (QuicGt(a, b) <==> a > b)
  { Trunc32(a - b) > 0 }

  predicate QuicLe(a: int, b: int)
    ensures -TWO31 <= a - b < TWO31 ==> (QuicLe(a, b) <==> a <= b)
  { Trunc32(a - b) <= 0 }

  predicate QuicGe(a: int, b: int)
    ensures -TWO31 <= a - b < TWO31 ==> (QuicGe(a, b) <==> a >= b)
  { Trunc32(a - b) >= 0 }

  function QuicMax(a: int, b: int): (r: int)
    ensures -TWO31 <= a - b < TWO31 ==> r >= a && r >= b && (r == a || r == b)
  { if QuicGt(a, b) then a else b }

  /** The exact domain of the macros. QUIC_LT is right exactly when the difference, counted in units
      of 2^31, has the parity its sign asks for; QUIC_GT exactly when a difference above zero, and no
      other, leaves a remainder between 0 and 2^31; the other two are their negations. */
  lemma MacroAgreesIff(a: int, b: int)
    ensures (QuicLt(a, b) <==> a < b) <==> ((a < b) <==> (a - b) / TWO31 % 2 == 1)
    ensures QuicGt(a, b) <==> 0 < (a - b) % TWO32 < TWO31
    ensures (QuicGt(a, b) <==> a > b) <==> (a > b <==> 0 < (a - b) % TWO32 < TWO31)
    ensures QuicGe(a, b) <==> !QuicLt(a, b)
    ensures QuicLe(a, b) <==> !QuicGt(a, b)
  {
    var d := a - b;
    var q, m := d / TWO31, d % TWO31;
    assert d == q * TWO31 + m;
    var h, p := q / 2, q % 2;
    assert d == h * TWO32 + (p * TWO31 + m);
  }

  function Max(a: int, b: int): int { if a >= b then a else b }
  function Min(a: int, b: int): int { if a <= b then a else b }

  lemma Assoc3<T>(a: seq<T>, b: seq<T>, c: seq<T>)
    ensures a + b + c == a + (b + c)
  {}
}
