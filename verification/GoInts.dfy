/** The widths of Go's integers, where the program depends on them. */
module GoInts {
  const INT64_MAX := 0x7fff_ffff_ffff_ffff
  const INT64_MIN := -0x8000_0000_0000_0000
  const TWO_64 := 0x1_0000_0000_0000_0000

  /** Go's conversion of a signed 64-bit integer to uint64. */
  function AsUint64(n: int): nat {
    n % TWO_64
  }

  /** Go's signed 64-bit wrap-around. */
  function Int64(n: int): int {
    (n - INT64_MIN) % TWO_64 + INT64_MIN
  }

  lemma NoWrap(n: int)
    requires INT64_MIN <= n <= INT64_MAX
    ensures Int64(n) == n
  {
  }

  lemma Uint64Exact(n: int)
    requires 0 <= n <= INT64_MAX
    ensures AsUint64(n) == n
  {
  }
}
