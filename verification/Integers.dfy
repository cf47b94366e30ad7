/** The ranges of 32-bit and 64-bit integers, and wrap-around. */
module Integers {

  const TWO31 := 0x8000_0000
  const TWO32 := 0x1_0000_0000
  const TWO63 := 0x8000_0000_0000_0000
  const TWO64 := 0x1_0000_0000_0000_0000

  datatype Kind = Int | Long

  function Half(kind: Kind): int {
    if kind == Int then TWO31 else TWO63
  }

  function Modulus(kind: Kind): int {
    if kind == Int then TWO32 else TWO64
  }

  predicate InKind(kind: Kind, n: int) {
    -Half(kind) <= n < Half(kind)
  }

  /** Wrap-around to the signed range. */
  function Wrap(kind: Kind, n: int): (r: int)
    ensures InKind(kind, r) && (InKind(kind, n) ==> r == n)
  {
    (n + Half(kind)) % Modulus(kind) - Half(kind)
  }
}
