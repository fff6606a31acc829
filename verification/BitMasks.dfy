/**
 A 32-bit mask as the set of its bit positions: union, intersection and difference of masks are the
 bitwise or, and, and and-not.
 */
module BitMasks {
  newtype Bit = b: int | 0 <= b < 32

  type Mask = set<Bit>
}
