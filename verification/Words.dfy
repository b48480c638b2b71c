/** Machine words: the source's unsigned 16- and 32-bit integers. */
module Words {
  const U16 := 0x1_0000
  const U32 := 0x1_0000_0000

  // A cast keeps the low bits.

  function AsU16(i: int): nat { i % U16 }

  function AsU32(i: int): nat { i % U32 }
}
