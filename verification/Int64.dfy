/** Go's int64: a bounded range whose arithmetic wraps around. */
module Int64 {

  const TWO_TO_63: int := 0x8000_0000_0000_0000

  type int64 = x: int | -TWO_TO_63 <= x < TWO_TO_63

  function Wrap64(x: int): int64 {
    (x + TWO_TO_63) % (2 * TWO_TO_63) - TWO_TO_63
  }
}
