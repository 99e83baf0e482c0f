/** Fixed-width integers with the saturating operators of the scheduler, and optional values. */
module Machine {

  const U32_MAX: int := 0xFFFF_FFFF
  const U64_MAX: int := 0xFFFF_FFFF_FFFF_FFFF

  type u32 = x: int | 0 <= x <= 0xFFFF_FFFF
  type u64 = x: int | 0 <= x <= 0xFFFF_FFFF_FFFF_FFFF

  datatype Option<+T> = None | Some(value: T) {
    function GetOr(default: T): T {
      match this
      case Some(v) => v
      case None => default
    }

    /** `Option::or`: the first present value. */
    function Or(other: Option<T>): Option<T> {
      if Some? then this else other
    }
  }

  function Min(a: int, b: int): int { if a <= b then a else b }

  function Max(a: int, b: int): int { if a <= b then b else a }

  function SatAdd32(a: u32, b: u32): u32 { Min(a + b, U32_MAX) }

  function SatAdd64(a: u64, b: u64): u64 { Min(a + b, U64_MAX) }

  function SatMul64(a: u64, b: u64): u64
  {
    assert 0 <= a * b;
    Min(a * b, U64_MAX)
  }

  /** Saturating subtraction, the same at every width. */
  function SatSub(a: nat, b: nat): (r: nat)
    ensures r <= a
  {
    if a <= b then 0 else a - b
  }
}
