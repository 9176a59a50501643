/** Small datatypes shared by every module of the model. */
module Prelude {

  datatype Option<+T> = None | Some(value: T)

  datatype Result<+T, +E> = Ok(value: T) | Err(error: E)

  /** How one database or filesystem operation ends.
      A failing operation may or may not have taken effect, which also covers a
      process that dies right before or right after it. */
  datatype Outcome = Done | FailsBefore | FailsAfter {
    predicate TakesEffect() { Done? || FailsAfter? }
  }

  type Byte = b: int | 0 <= b < 256

  type Bytes = seq<Byte>

  /** A digest is kept symbolic: it records the bytes it was computed from. */
  datatype Digest = Sha256(content: Bytes)

  const U64_MAX: nat := 0xFFFF_FFFF_FFFF_FFFF

  function Min(a: int, b: int): int {
    if a <= b then a else b
  }

  function SaturatingAdd(a: nat, b: nat): nat {
    Min(a + b, U64_MAX)
  }
}
