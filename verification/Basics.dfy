/** Types and functions that several components share. */
module Basics {
  datatype Option<+T> = None | Some(value: T)

  type Byte = b: int | 0 <= b < 256

  /** A token id: a signed 32-bit integer. */
  type Token = t: int | -0x8000_0000 <= t < 0x8000_0000

  function Pow2(k: nat): (p: nat)
    ensures p > 0
  {
    if k == 0 then 1 else 2 * Pow2(k - 1)
  }

  function Concat<T>(parts: seq<seq<T>>): seq<T> {
    if parts == [] then [] else parts[0] + Concat(parts[1..])
  }

  function Add(xs: seq<real>): real {
    if xs == [] then 0.0 else Add(xs[..|xs| - 1]) + xs[|xs| - 1]
  }
}
