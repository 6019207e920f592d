/**
 * Machine types and C run-time outcomes shared by every module of the model.
 */
module CTypes {
  /** An unsigned 8-bit value (`uint8_t`, a Python byte). */
  type byte = x: int | 0 <= x < 0x100
  /** An unsigned 16-bit value (`uint16_t`, `USHORT`). */
  type u16 = x: int | 0 <= x < 0x1_0000
  /** An unsigned 32-bit value (`ULONG`, `unsigned int`). */
  type u32 = x: int | 0 <= x < 0x1_0000_0000
  /** An unsigned 64-bit value (`size_t`). */
  type u64 = x: int | 0 <= x < 0x1_0000_0000_0000_0000

  /** A signed 32-bit value (`int`, `LONG`). */
  type int32 = x: int | -0x8000_0000 <= x < 0x8000_0000

  /** `(USHORT)-1` */
  const USHORT_MAX: u16 := 0xFFFF
  /** `(ULONG)-1` and `(unsigned int)-1` */
  const ULONG_MAX: u32 := 0xFFFF_FFFF

  datatype Option<T> = None | Some(value: T)

  /**
   * How a C routine ends: it returns an `int` code to its caller, or the
   * whole process ends inside it (`exit(-1)` in C, a bare `throw;` outside
   * any handler in C++, which calls `std::terminate`).
   */
  datatype Status = Returned(code: int) | Terminated
}
