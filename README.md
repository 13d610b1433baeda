# AT42QT2120 touch-slider driver and dimmer: a Dafny model

This project models the core of an ESP-IDF driver for the AT42QT2120
capacitive touch controller and the dimmer example built on it:

- **Register map** (`register_map.dfy`): the full address table of the chip
  (sixteen general registers, then per-key detection threshold, control,
  pulse-scale, signal and reference blocks for twelve keys) as a function from
  a register to its byte address, with its layout, distinctness and coverage
  of `0x00`–`0x63` proved against an independent base-plus-stride decoder.
- **Short header** (`driver_defines.dfy`): the slave address and the six
  registers the driver and the example actually include, proved equal to the
  full table's entries, distinct and inside the general block.
- **Register transport** (`driver.dfy`): the device handle, `at42qt2120_init`,
  `at42qt2120_register_read` and `at42qt2120_register_write`. The I2C master
  library is an abstract `Bus` that records each call made to it; the status
  code of every bus call is a parameter that the driver must pass back
  unchanged. The contracts state the argument checks, that a rejected call
  never reaches the bus, the exact transaction issued (one write-then-read
  with the single register byte, or one transmit of the frame
  `[reg, payload...]`), the handle's time-out, and the pass-through of the
  bus result.
- **Dimmer** (`dimmer.dfy`): the globals `LEDs` and `Position`, the
  single-click handler, the position sampler loop and the long-press
  velocity loop. The long-press loop is proved against a pure fold of its
  step (bounded velocity, then saturation of `LEDs` into 0..255), about
  which the saturation cases, the telescoping sum and the "no movement, no
  change" property are proved.
- `bytes.dfy` holds the fixed-width integer types (`uint8`, `uint16`,
  `uint32`, `int32`).

Inputs that the driver and the example take from the outside world are
parameters here: every bus status code, the device handle the bus library
assigns, the bytes a device sends back on a read, the levels the change pin
shows at each loop head, the values the sensor returns to the sampler, and
the values of `Position` the long-press loop sees. The pin is active low and
is read once per iteration at the loop head; a finite trace that ends while
the pin is still low ends the loop there.

`esp_err_t` is a 32-bit integer with `ESP_OK` = 0 and
`ESP_ERR_INVALID_ARG` = 0x102, the ESP-IDF values; `esp_err.h` is not part
of this model. `size_t` is 32 bits wide on the ESP32, so the clock speed
is a `uint32` and is stored in `scl_speed_hz` without truncation.

Notes on the code as modelled:
- the long-press delta guard is `< -256` below and `> 255` above
  (`Dimmer.Guard`); for the `uint8` operands the code subtracts, neither
  branch fires (`Dimmer.Velocity`);
- `at42qt2120_init` returns the add-device status unchanged;
- no gesture state machine is modelled; the example only registers three
  button callbacks.

## Model

| member | source | states |
|---|---|---|
| RegisterMap.GeneralLayout | include/esp_at42qt2120_defines.h:22-52 | the sixteen general registers sit at 0x00 to 0x0F, one per address, in header order |
| RegisterMap.KeyLayout | include/esp_at42qt2120_defines.h:56-151 | every per-key register is at its block's base plus the key index times the block's stride (1 for threshold, control and pulse scale; 2 for signal and reference) |
| RegisterMap.ThresholdLayout | include/esp_at42qt2120_defines.h:56-67 | the detection threshold of key k is at 0x10 + k |
| RegisterMap.ControlLayout | include/esp_at42qt2120_defines.h:71-82 | the control register of key k is at 0x1C + k |
| RegisterMap.PulseScaleLayout | include/esp_at42qt2120_defines.h:86-97 | the pulse-scale register of key k is at 0x28 + k |
| RegisterMap.SignalLayout | include/esp_at42qt2120_defines.h:101-124 | the signal MSB of key k is at 0x34 + 2k and the LSB is the next address |
| RegisterMap.ReferenceLayout | include/esp_at42qt2120_defines.h:128-151 | the reference MSB of key k is at 0x4C + 2k and the LSB is the next address |
| RegisterMap.DecodeAddress | include/esp_at42qt2120_defines.h:22-151 | decoding any register's address gives back that register, so the address is a left-invertible encoding |
| RegisterMap.AddressDecode | include/esp_at42qt2120_defines.h:22-151 | an address decodes exactly when it is below 0x64, and then to a register at that same address |
| RegisterMap.AddressInjective | include/esp_at42qt2120_defines.h:22-151 | two registers share an address if and only if they are the same register |
| RegisterMap.AddressCoverage | include/esp_at42qt2120_defines.h:22-151 | the set of register addresses is exactly 0x00 to 0x63, with no gaps |
| DriverDefines.AgreesWithFullTable | include/esp_at42at2120_defines.h:4-12 | the short header's slave address is the full table's 0x1C, and each of its six registers equals the same-named entry of the full table |
| DriverDefines.InUseDistinct | include/esp_at42at2120_defines.h:7-12 | the six register addresses of the short header are pairwise distinct |
| DriverDefines.InUseGeneral | include/esp_at42at2120_defines.h:7-12 | all six are below 0x10 and decode to the general register of the same name |
| Driver.WaitRoundTrip | include/esp_at42qt2120_driver.h:22 | reading a time-out as -1 = wait forever and any other value = that many milliseconds is lossless: every int32 time-out is recovered from the policy it stands for, and every policy (other than a -1 ms wait) from its encoding |
| Driver.Handle.constructor | include/esp_at42qt2120_driver.h:10-14 | a handle holds a device configuration (address length, address, clock speed), a device handle and a time-out, all zero in static storage |
| Driver.Bus.constructor | esp_at42qt2120_driver.c:30 | the abstract bus starts with no recorded calls |
| Driver.Bus.AddDeviceCall | esp_at42qt2120_driver.c:30 | the add-device call is recorded with the configuration it was given and returns the chosen status |
| Driver.Bus.TransmitCall | esp_at42qt2120_driver.c:74 | a transmit is recorded with its device, bytes and time-out and returns the chosen status |
| Driver.Bus.TransmitReceiveCall | esp_at42qt2120_driver.c:53 | a write-then-read is recorded with its device, write bytes, read length and time-out, returns the chosen status, and on success fills the first read-length bytes of the buffer with the device's response, touching nothing else |
| Driver.FrameLayout | esp_at42qt2120_driver.c:69-72 | a write frame is one byte longer than its payload, starts with the register, and byte i is payload byte i-1 |
| Driver.FrameInjective | esp_at42qt2120_driver.c:69-72 | two frames are equal exactly when their registers and payloads are equal |
| Driver.FrameFits | include/esp_at42qt2120_driver.h:47 | with a `uint8_t` size a payload is at most 255 bytes and its frame between 1 and 256 bytes |
| Driver.BuildFrame | esp_at42qt2120_driver.c:68-72 | the loop that fills the local buffer yields exactly the register byte followed by the first `size` bytes of the caller's buffer, in order, and only reads the caller's buffer |
| Driver.Init | esp_at42qt2120_driver.c:12-37 | a NULL handle, and then a NULL bus, return ESP_ERR_INVALID_ARG with no bus call and the handle untouched; otherwise the handle gets 7-bit address 0x1C, the given clock speed and time-out, the device is added once with that configuration, and the add-device status is returned unchanged; ESP_OK is returned exactly when both pointers are present and the bus succeeds |
| Driver.RegisterRead | esp_at42qt2120_driver.c:40-54 | a NULL handle, a NULL buffer or size 0 return ESP_ERR_INVALID_ARG with no bus call and the buffer untouched; otherwise exactly one write-then-read is issued with the single register byte, read length `read_buf_size` and the handle's time-out, and its status is returned unchanged; ESP_OK exactly when the arguments are valid and the bus succeeds |
| Driver.RegisterWrite | esp_at42qt2120_driver.c:56-75 | a NULL handle, a NULL buffer or size 0 return ESP_ERR_INVALID_ARG with no bus call; otherwise exactly one transmit of the frame [reg, payload...] with the handle's time-out is issued and its status returned unchanged, with no retry; the caller's buffer is not modified; ESP_OK exactly when the arguments are valid and the bus succeeds |
| Dimmer.HeldFor | examples/dimmer_test/main/dimmer_test.c:120 | the number of iterations of a loop guarded by the active-low pin: every level before it is low, and the level at it (if any) is high |
| Dimmer.ReleasedOnEntry | examples/dimmer_test/main/dimmer_test.c:139 | if the pin is already high on entry (or the trace is empty), the loop runs zero iterations |
| Dimmer.Velocity | examples/dimmer_test/main/dimmer_test.c:141-147 | the guarded velocity always equals CurrPosition - PrevPosition and lies in [-255, 255], so for uint8 positions neither guard branch fires |
| Dimmer.SaturateNearest | examples/dimmer_test/main/dimmer_test.c:150-155 | the saturated LEDs value is in 0..255, equals the sum when that is in range, and is the value of 0..255 nearest to the sum |
| Dimmer.StepLeds | examples/dimmer_test/main/dimmer_test.c:141-157 | one iteration makes LEDs the sum LEDs + velocity when in range, 255 above, 0 below, and sets PrevPosition to CurrPosition |
| Dimmer.StepStill | examples/dimmer_test/main/dimmer_test.c:147-157 | an iteration with CurrPosition == PrevPosition leaves LEDs and PrevPosition unchanged |
| Dimmer.RunPrev | examples/dimmer_test/main/dimmer_test.c:136-157 | after any number of iterations PrevPosition is the last position read, or the entry Position if none was |
| Dimmer.RunTelescopes | examples/dimmer_test/main/dimmer_test.c:139-158 | if no iteration saturates, LEDs ends at its entry value plus the last position read minus the entry Position |
| Dimmer.RunStill | examples/dimmer_test/main/dimmer_test.c:139-158 | if every position read equals the entry Position, the loop state is unchanged |
| Dimmer.ScenarioSlowMove | examples/dimmer_test/main/dimmer_test.c:139-158 | from LEDs 100 at Position 10, reads 10, 10, 50, 50 give LEDs 100, 100, 140, 140 |
| Dimmer.ScenarioSaturation | examples/dimmer_test/main/dimmer_test.c:150-155 | from LEDs 200 at Position 0, a read of 255 saturates LEDs at 255 (not 455), and a read of 0 after it at 0 |
| Dimmer.Globals.constructor | examples/dimmer_test/main/dimmer_test.c:21-22 | LEDs and Position both start at 0 |
| Dimmer.Globals.SingleClick | examples/dimmer_test/main/dimmer_test.c:128-131 | a single click sets LEDs to Position and changes nothing else |
| Dimmer.Globals.TrackSliderPosition | examples/dimmer_test/main/dimmer_test.c:118-126 | while the pin is low, each iteration stores exactly one sensor read into Position, in order; Position ends as the last read (or unchanged if none), and LEDs is never written |
| Dimmer.Globals.LongPress | examples/dimmer_test/main/dimmer_test.c:133-160 | PrevPosition starts as Position; the loop runs while the pin is low and the final LEDs and PrevPosition are the fold of the step over the positions it read; Position is not written |

## Left out

- FreeRTOS: task creation and deletion (`_single_press_event` only spawns the sampler task), the 10 ms delays and the unsynchronised sharing of `LEDs` and `Position` between tasks. The loops run sequentially over input sequences; races and scheduling are not modelled.
- GPIO and button plumbing (`nchange_button_init`, `gpio_get_level`, callback registration): the pin is an input sequence of levels and the handlers are called directly.
- The ESP-IDF I2C calls (`i2c_new_master_bus`, `i2c_master_bus_add_device`, `i2c_master_transmit`, `i2c_master_transmit_receive`): foreign code, modelled only as the abstract `Bus` that records calls and returns a chosen status.
- Driver.Bus.TransmitReceiveCall: what the library leaves in the read buffer when the transaction fails is not known; the abstract bus leaves it unchanged, and `Driver.RegisterRead` promises the buffer contents only on success.
- Driver.Init: the device handle the library writes is an input, stored whatever the add-device status is; what the library does with it on failure is not modelled.
- `ESP_LOGx` logging: no behaviour.
- `at42qt2120_reset`, `at42qt2120_enable_slider`, `at42qt2120_calibrate` and `at42qt2120_read_slider_position` are called by the examples but defined in no file of this model, so their register bytes and delays are not modelled; the position read is only an input value per sampler iteration.
- `examples/basic_slider/main/basic_slider.c`, `app_main` and `i2c_bus_init`: bus setup and an endless print loop, with no logic beyond the calls above.
- Wheel wrap-around: the delta is the raw difference of two `uint8` positions, as in the code; no modular correction is added.
