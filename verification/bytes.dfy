/** Machine integers and byte strings, spelled out over `int`. */
module Bytes {

  type byte = b: int | 0 <= b < 0x100
  type u16 = n: int | 0 <= n < 0x1_0000
  type u32 = n: int | 0 <= n < 0x1_0000_0000
  type u64 = n: int | 0 <= n < 0x1_0000_0000_0000_0000
  type i32 = n: int | -0x8000_0000 <= n < 0x8000_0000

  datatype Option<+T> = None | Some(value: T)

  /** Conversion to a 32-bit signed integer: two's-complement wrap-around. */
  function Int32(n: int): (r: i32)
    ensures -0x8000_0000 <= n < 0x8000_0000 ==> r == n
  {
    (n + 0x8000_0000) % 0x1_0000_0000 - 0x8000_0000
  }

  /** Conversion to a 64-bit unsigned integer. */
  function Mod64(n: int): (r: u64)
    ensures 0 <= n < 0x1_0000_0000_0000_0000 ==> r == n
  {
    n % 0x1_0000_0000_0000_0000
  }

  /** The high and the low byte of a 16-bit number, and back. */
  function Hi(n: int): byte { n / 0x100 % 0x100 }

  function Lo(n: int): byte { n % 0x100 }

  function Word(hi: byte, lo: byte): u16 { hi * 0x100 + lo }
}
