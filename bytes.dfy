/** Fixed-width integer types of the C sources, as subset types of int. */
module Bytes {

  /** uint8_t */
  type uint8 = x: int | 0 <= x < 0x100

  /** uint16_t */
  type uint16 = x: int | 0 <= x < 0x1_0000

  /** uint32_t; also size_t, which is 32 bits wide on the ESP32 target */
  type uint32 = x: int | 0 <= x < 0x1_0000_0000

  /** int (and esp_err_t), 32 bits wide on the ESP32 target */
  type int32 = x: int | -0x8000_0000 <= x < 0x8000_0000
}
