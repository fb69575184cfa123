/**
 The machine integers that more than one component counts or computes with.
 */
module Words {

  const U32: nat := 0x1_0000_0000
  const U64: nat := 0x1_0000_0000_0000_0000

  type Byte = b: int | 0 <= b < 256
}
