/** Fixed-width integers of the firmware. */
module Bytes {

  /** An unsigned 8-bit value (`uint8_t`): colour channels, addresses and event data. */
  type Byte = x: int | 0 <= x < 256

  /** A signed 16-bit value (`int16_t`), the width of the RGB adjustment temporary. */
  type Int16 = x: int | -0x8000 <= x < 0x8000
}
