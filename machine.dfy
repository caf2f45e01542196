/**
 * Fixed-width unsigned arithmetic of the x64 Windows target: UINT and ULONG
 * are 32 bits, SIZE_T, UINT64 and uintptr_t are 64 bits. Dafny integers are
 * unbounded, so every place where the C++ code can wrap says so explicitly.
 */
module Machine {
  const U32: nat := 0x1_0000_0000
  const U64: nat := 0x1_0000_0000_0000_0000

  type u32 = x: nat | x < 0x1_0000_0000
  type u64 = x: nat | x < 0x1_0000_0000_0000_0000

  /** The value a 64-bit unsigned variable holds after being assigned `x`. */
  function Wrap64(x: int): (r: nat)
    ensures r < U64
    ensures 0 <= x < U64 ==> r == x
  {
    x % U64
  }

  /** The value a 32-bit unsigned variable holds after being assigned `x`. */
  function Wrap32(x: int): (r: nat)
    ensures r < U32
    ensures 0 <= x < U32 ==> r == x
  {
    x % U32
  }
}
