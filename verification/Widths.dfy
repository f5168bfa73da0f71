/** The range of the source's 32-bit unsigned numbers: tickets, words, addresses. */
module Widths {

  const UINT32 := 0x1_0000_0000
}
