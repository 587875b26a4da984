/** Integer arithmetic of the C language where it differs from Dafny's. */
module CArithmetic {

  /** Integer division as C does it: towards zero. */
  function CDiv(a: int, b: int): int
    requires b > 0
  {
    if a >= 0 then a / b else -((-a) / b)
  }

  /** The remainder as C takes it. */
  function CMod(a: int, b: int): int
    requires b > 0
  {
    if a >= 0 then a % b else -((-a) % b)
  }
}
