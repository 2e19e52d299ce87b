/**
 Options, results and the machine-integer conversions the client relies on.
 Everything is a mathematical integer here; each conversion that can wrap,
 truncate or saturate in the program is written out.
 */
module Common {

  datatype Option<+T> = None | Some(value: T)

  datatype Result<+T, +E> = Ok(value: T) | Err(error: E)

  datatype Error =
    | InvalidParameters(reason: string)
    | Auth(reason: string)

  /** `a.or(b)`: the first option when it holds a value, else the second. */
  function Or<T>(a: Option<T>, b: Option<T>): Option<T> {
    if a.Some? then a else b
  }

  /** Durations and instants are whole nanoseconds. */
  const SECOND := 1_000_000_000
  const MILLISECOND := 1_000_000

  const U32_MAX := 0xFFFF_FFFF
  const I32_MAX := 0x7FFF_FFFF
  const I64_MAX := 0x7FFF_FFFF_FFFF_FFFF

  /** `x as i32` for an integer of at least 32 bits: keep the low bits, read them as signed. */
  function AsI32(x: int): int {
    var low := x % 0x1_0000_0000;
    if low <= I32_MAX then low else low - 0x1_0000_0000
  }

  /** `x as i64` for an integer of at least 64 bits. */
  function AsI64(x: int): int {
    var low := x % 0x1_0000_0000_0000_0000;
    if low <= I64_MAX then low else low - 0x1_0000_0000_0000_0000
  }

  /** `x as u32`: the low 32 bits, read as unsigned. */
  function AsU32(x: int): nat {
    x % 0x1_0000_0000
  }

  function SaturatingAddU32(a: nat, b: nat): nat {
    if a + b <= U32_MAX then a + b else U32_MAX
  }

  function SaturatingSubU32(a: nat, b: nat): nat {
    if b <= a then a - b else 0
  }

  function Min(a: int, b: int): int {
    if a <= b then a else b
  }

  function Max(a: int, b: int): int {
    if a <= b then b else a
  }
}
