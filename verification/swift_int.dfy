/** Swift's `Int`, taken to be 64 bits wide (its width on 64-bit devices).
    Arithmetic on it traps on overflow instead of wrapping, so the model keeps
    the bounds explicit wherever a counter is incremented. */
module SwiftInt {

  const MinInt: int := -0x8000_0000_0000_0000
  const MaxInt: int := 0x7fff_ffff_ffff_ffff

  type Int64 = x: int | MinInt <= x <= MaxInt
}
