/// Two's-complement 64-bit integers as the C# code uses them: `long`,
/// `ulong`, and the unchecked cast `(long)` of a `ulong`.
module Int64 {
  const MIN64: int := -0x8000_0000_0000_0000
  const MAX64: int := 0x7FFF_FFFF_FFFF_FFFF
  const MODULUS64: int := 0x1_0000_0000_0000_0000

  type int64 = x: int | MIN64 <= x <= MAX64
  type uint64 = x: int | 0 <= x < MODULUS64

  /// `(long)x` for a `ulong`: the same 64 bits read as a signed value.
  /// Values above long.MaxValue come out negative.
  function AsLong(x: uint64): (r: int64)
    ensures (r - x) % MODULUS64 == 0
    ensures x <= MAX64 <==> r >= 0
  {
    if x <= MAX64 then x else x - MODULUS64
  }

  /// `(long)(ulong)v` is `v` for every `long`, and `(ulong)(long)x` is `x`
  /// for every `ulong`: the cast loses nothing.
  lemma AsLongIsBijective(v: int64, x: uint64)
    ensures AsLong((if v >= 0 then v else v + MODULUS64) as uint64) == v
    ensures var r := AsLong(x); (if r >= 0 then r else r + MODULUS64) == x
  {
  }
}
