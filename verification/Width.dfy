/** The width of size_t and uint64_t. */
module Width {
  /** Their arithmetic wraps around here. */
  const WORD: nat := 0x1_0000_0000_0000_0000
}
