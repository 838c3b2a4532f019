/** Java integer semantics that the model needs explicitly: the 32-bit
    range of `int`, the wrap-around of `int` arithmetic and the number of
    times a counting `for` loop runs. */
module JavaInt {

  const IntMin: int := -0x8000_0000
  const IntMax: int := 0x7FFF_FFFF
  const LongMin: int := -0x8000_0000_0000_0000
  const LongMax: int := 0x7FFF_FFFF_FFFF_FFFF

  predicate IsInt(x: int) { IntMin <= x <= IntMax }
  predicate IsLong(x: int) { LongMin <= x <= LongMax }

  /** The value a Java `int` expression takes when its exact result is x
      (two's-complement wrap-around). */
  function Wrap32(x: int): (r: int)
    ensures IsInt(r)
    ensures (r - x) % 0x1_0000_0000 == 0
    ensures IsInt(x) ==> r == x
  {
    (x + 0x8000_0000) % 0x1_0000_0000 - 0x8000_0000
  }

  /** How many times `for (i = 0; i < n; i++)` runs its body: none at all
      when n is zero or negative. */
  function Iterations(n: int): nat
  {
    if n > 0 then n else 0
  }
}
