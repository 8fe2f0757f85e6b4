/** Java's 32-bit `int`, where the ledger's arithmetic on it can wrap around. */
module JavaInt {
  const IntMin: int := -0x8000_0000
  const IntMax: int := 0x7fff_ffff

  predicate IsInt(x: int) {
    IntMin <= x <= IntMax
  }

  /** The value a Java `int` expression yields for the mathematical result x. */
  function Wrap(x: int): (r: int)
    ensures IsInt(r)
    ensures IsInt(x) ==> r == x
    ensures IntMax < x <= IntMax + 0x1_0000_0000 ==> r == x - 0x1_0000_0000
  {
    (x - IntMin) % 0x1_0000_0000 + IntMin
  }
}
