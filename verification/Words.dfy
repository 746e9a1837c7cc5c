/** The ranges of the machine integers the broker computes in. */
module Words {
  const WORD8 := 0x100
  const WORD16 := 0x1_0000
  const WORD32 := 0x1_0000_0000
  const WORD63 := 0x8000_0000_0000_0000
  const WORD64 := 0x1_0000_0000_0000_0000
}
