// Go's 64-bit signed integers. Arithmetic on this newtype is checked: a member
// written with it is proved never to leave the range, so Go's wrap-around
// cannot occur in it.
module GoInts {
  const MAX_INT64 := 0x7fff_ffff_ffff_ffff
  const TWO_TO_THE_64 := 0x1_0000_0000_0000_0000

  newtype int64 = x: int | -0x8000_0000_0000_0000 <= x < 0x8000_0000_0000_0000
}
