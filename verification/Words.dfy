/** Sizes of the machine. */
module Words {

  const TWO_32: int := 0x1_0000_0000
  const PAGE_SIZE: int := 0x1_0000    // MEMORY_PAGE_SIZE

  type byte = x: int | 0 <= x < 256
  type uint32 = x: int | 0 <= x < TWO_32
}
