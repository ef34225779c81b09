/**
  The two `f32` library operations the simulation uses, which the model does not compute:
  `f32::sqrt` (speed clamp) and `f32::to_le_bytes` (checksum record). Values are `real`;
  IEEE rounding is not modelled.
 */
module Float {
  import opened Common

  /** The four little-endian bytes of one `f32`. */
  type Le4 = s: seq<u8> | |s| == 4 witness [0, 0, 0, 0]

  /** The library operations, passed to the simulation as parameters. */
  datatype F32Ops = F32Ops(sqrt: real -> real, toLeBytes: real -> Le4)

  /** The only property of `sqrt` the model relies on: it returns the non-negative root. */
  ghost predicate SqrtExact(sqrt: real -> real) {
    forall x :: 0.0 <= x ==> 0.0 <= sqrt(x) && sqrt(x) * sqrt(x) == x
  }
}
