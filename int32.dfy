// Fixed-width integers of the Arduino target: the position and its limits are
// int32_t, the GPIO pin numbers uint8_t.
module Int32 {

  const MinInt32: int := -0x8000_0000
  const MaxInt32: int := 0x7fff_ffff
  const Modulus: int := 0x1_0000_0000

  type int32 = x: int | -0x8000_0000 <= x < 0x8000_0000
  type uint8 = x: int | 0 <= x < 0x100

  /** Two's-complement reduction of a mathematical integer into int32_t. */
  function Wrap32(x: int): (r: int32)
    ensures MinInt32 <= x <= MaxInt32 ==> r == x
    ensures (x - r) % Modulus == 0
  {
    (x - MinInt32) % Modulus + MinInt32
  }

  /** Incrementing a wrapped value wraps the incremented value. */
  lemma Wrap32Succ(x: int)
    ensures Wrap32(Wrap32(x) + 1) == Wrap32(x + 1)
  {
  }

  /** At the top of the range, ++ wraps to the bottom and -- wraps back. */
  lemma Wrap32Extremes()
    ensures Wrap32(MaxInt32 + 1) == MinInt32
    ensures Wrap32(MinInt32 - 1) == MaxInt32
  {
  }
}
