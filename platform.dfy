/**
 Machine-level types and constants shared by the accelerator and the host
 program.
 */
module Platform {

  /** `uint32_t` (and a 32-bit `unsigned int`). */
  const WORD_SPAN: int := 0x1_0000_0000
  type UInt32 = n: int | 0 <= n < WORD_SPAN

  /** `#define PROCESSORS 2`: the number of harts. */
  const PROCESSORS: nat := 2
}
