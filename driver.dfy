/**
 * The register transport of the AT42QT2120 driver (esp_at42qt2120_driver.c,
 * include/esp_at42qt2120_driver.h): the device handle, its initialisation,
 * and single-register reads and writes over an abstract I2C bus.
 *
 * The ESP-IDF I2C master library is not modelled. Its bus is a `Bus` object
 * that records every call made to it; the status code each call returns (and
 * any data it hands back) is chosen by the caller of the driver operation and
 * passed through as a parameter.
 */
module Driver {
  import opened Bytes
  import DriverDefines

  /** esp_err_t */
  type EspErr = int32

  const ESP_OK: EspErr := 0
  const ESP_ERR_INVALID_ARG: EspErr := 0x102

  /** i2c_addr_bit_len_t */
  datatype AddrBitLen = AddrBits7 | AddrBits10

  /** The fields of i2c_device_config_t that the driver sets. */
  datatype DeviceConfig = DeviceConfig(addrLength: AddrBitLen, deviceAddress: uint16, sclSpeedHz: uint32)

  /** i2c_master_dev_handle_t: an opaque device handle handed out by the bus library. */
  datatype DeviceHandle = NullDevice | Device(id: nat)

  /** How long a transaction may wait, as the transaction_timeout_ms field encodes it. */
  datatype WaitPolicy = WaitForever | WaitMillis(ms: int)

  /** The header's reading of the time-out argument: -1 waits forever, any other value is milliseconds. */
  function Wait(timeoutMs: int32): WaitPolicy
  {
    if timeoutMs == -1 then WaitForever else WaitMillis(timeoutMs)
  }

  /** The time-out value that encodes a wait policy. */
  function TimeoutOf(w: WaitPolicy): int
  {
    match w
    case WaitForever => -1
    case WaitMillis(ms) => ms
  }

  /**
   * The time-out encoding is lossless both ways: every int32 time-out is the
   * encoding of the policy it stands for, and every policy but a wait of
   * -1 ms (which -1 would read as "forever") is recovered from its encoding.
   */
  lemma WaitRoundTrip(t: int32, w: WaitPolicy)
    ensures TimeoutOf(Wait(t)) == t
    ensures w.WaitMillis? ==> w.ms != -1 && -0x8000_0000 <= w.ms < 0x8000_0000 ==>
              Wait(TimeoutOf(w)) == w
    ensures w.WaitForever? ==> Wait(TimeoutOf(w)) == w
  {
  }

  /** One call into the I2C master library, as the bus records it. */
  datatype Transaction =
    | AddDevice(config: DeviceConfig)
    | Transmit(device: DeviceHandle, data: seq<uint8>, timeoutMs: int32)
    | TransmitReceive(device: DeviceHandle, write: seq<uint8>, readSize: nat, timeoutMs: int32)

  /** The I2C master bus, reduced to the record of the calls made to it. */
  class Bus {
    var log: seq<Transaction>

    constructor ()
      ensures log == []
    {
      log := [];
    }

    /** i2c_master_bus_add_device: records the call and returns `result` unchanged. */
    method AddDeviceCall(config: DeviceConfig, result: EspErr) returns (ret: EspErr)
      modifies this
      ensures log == old(log) + [AddDevice(config)]
      ensures ret == result
    {
      log := log + [AddDevice(config)];
      ret := result;
    }

    /** i2c_master_transmit: records the call and returns `result` unchanged. */
    method TransmitCall(device: DeviceHandle, data: seq<uint8>, timeoutMs: int32, result: EspErr)
      returns (ret: EspErr)
      modifies this
      ensures log == old(log) + [Transmit(device, data, timeoutMs)]
      ensures ret == result
    {
      log := log + [Transmit(device, data, timeoutMs)];
      ret := result;
    }

    /**
     * i2c_master_transmit_receive: records the call, returns `result`
     * unchanged and, when that is ESP_OK, stores the device's `response`
     * in the first `readSize` bytes of `readBuf`.
     */
    method TransmitReceiveCall(device: DeviceHandle, write: seq<uint8>, readBuf: array<uint8>,
                               readSize: nat, timeoutMs: int32, result: EspErr, response: seq<uint8>)
      returns (ret: EspErr)
      requires readSize <= readBuf.Length && |response| == readSize
      modifies this, readBuf
      ensures log == old(log) + [TransmitReceive(device, write, readSize, timeoutMs)]
      ensures ret == result
      ensures readBuf[readSize..] == old(readBuf[readSize..])
      ensures result == ESP_OK ==> readBuf[..readSize] == response
      ensures result != ESP_OK ==> readBuf[..] == old(readBuf[..])
    {
      log := log + [TransmitReceive(device, write, readSize, timeoutMs)];
      ret := result;
      if result == ESP_OK {
        forall i | 0 <= i < readSize {
          readBuf[i] := response[i];
        }
      }
    }
  }

  /** at42qt2120_handle_t */
  class Handle {
    var deviceConfig: DeviceConfig
    var deviceHandle: DeviceHandle
    var transactionTimeoutMs: int32

    /** A handle in static storage: every field zero. */
    constructor ()
      ensures deviceConfig == DeviceConfig(AddrBits7, 0, 0)
      ensures deviceHandle == NullDevice && transactionTimeoutMs == 0
    {
      deviceConfig := DeviceConfig(AddrBits7, 0, 0);
      deviceHandle := NullDevice;
      transactionTimeoutMs := 0;
    }
  }

  /** The single frame a register write puts on the bus: the register address, then the payload. */
  function Frame(reg: uint8, payload: seq<uint8>): seq<uint8>
  {
    [reg] + payload
  }

  /** A frame determines its register and payload, and is one byte longer than the payload. */
  lemma FrameLayout(reg: uint8, payload: seq<uint8>)
    ensures |Frame(reg, payload)| == |payload| + 1
    ensures Frame(reg, payload)[0] == reg
    ensures forall i | 1 <= i <= |payload| :: Frame(reg, payload)[i] == payload[i - 1]
    ensures Frame(reg, payload)[1..] == payload
  {
  }

  /** Different register/payload pairs never produce the same frame. */
  lemma FrameInjective(r1: uint8, p1: seq<uint8>, r2: uint8, p2: seq<uint8>)
    ensures Frame(r1, p1) == Frame(r2, p2) <==> r1 == r2 && p1 == p2
  {
    if Frame(r1, p1) == Frame(r2, p2) {
      assert Frame(r1, p1)[0] == r1 && Frame(r2, p2)[0] == r2;
      assert Frame(r1, p1)[1..] == p1 && Frame(r2, p2)[1..] == p2;
    }
  }

  /** With a uint8_t size, a payload is at most 255 bytes and its frame at most 256. */
  lemma FrameFits(reg: uint8, payload: seq<uint8>, size: uint8)
    requires |payload| == size
    ensures 1 <= |Frame(reg, payload)| <= 256
  {
  }

  /**
   * The frame-building loop of at42qt2120_register_write: a local buffer of
   * size + 1 bytes, the register first, then the caller's bytes one by one.
   * The caller's buffer is only read.
   */
  method BuildFrame(reg: uint8, writeBuf: array<uint8>, size: uint8) returns (frame: seq<uint8>)
    requires size <= writeBuf.Length
    ensures frame == Frame(reg, writeBuf[..size])
  {
    var buffer := new uint8[size + 1];
    buffer[0] := reg;
    for index := 1 to size + 1
      invariant buffer[0] == reg
      invariant forall j | 1 <= j < index :: buffer[j] == writeBuf[j - 1]
    {
      buffer[index] := writeBuf[index - 1];
    }
    frame := buffer[..];
    assert frame == Frame(reg, writeBuf[..size]) by {
      forall j | 0 <= j < size + 1
        ensures frame[j] == Frame(reg, writeBuf[..size])[j]
      {
      }
    }
  }

  /**
   * at42qt2120_init: rejects a missing handle, then a missing bus, before any
   * bus call; otherwise fills in the handle's configuration and time-out and
   * registers the device, returning the library's status unchanged.
   * `attached` is what the library stores in the handle's device handle.
   */
  method Init(bus: Bus?, handle: Handle?, clockSpeed: uint32, timeOut: int32,
              addResult: EspErr, attached: DeviceHandle) returns (ret: EspErr)
    modifies bus, handle
    ensures handle == null ==> ret == ESP_ERR_INVALID_ARG
    ensures handle == null && bus != null ==> bus.log == old(bus.log)
    ensures handle != null && bus == null ==>
      ret == ESP_ERR_INVALID_ARG && unchanged(handle)
    ensures handle != null && bus != null ==>
      && handle.deviceConfig == DeviceConfig(AddrBits7, DriverDefines.SlaveAddress, clockSpeed)
      && handle.transactionTimeoutMs == timeOut
      && handle.deviceHandle == attached
      && bus.log == old(bus.log) + [AddDevice(handle.deviceConfig)]
      && ret == addResult
    ensures ret == ESP_OK <==> handle != null && bus != null && addResult == ESP_OK
  {
    if handle == null {
      return ESP_ERR_INVALID_ARG;
    }
    if bus == null {
      return ESP_ERR_INVALID_ARG;
    }
    handle.deviceConfig := DeviceConfig(AddrBits7, DriverDefines.SlaveAddress, clockSpeed);
    handle.transactionTimeoutMs := timeOut;
    ret := bus.AddDeviceCall(handle.deviceConfig, addResult);
    handle.deviceHandle := attached;
  }

  /**
   * at42qt2120_register_read: rejects a missing handle, a missing buffer or a
   * zero size without touching the bus; otherwise issues one write-then-read
   * transaction (the register byte out, `readBufSize` bytes in, with the
   * handle's time-out) and returns the bus result unchanged.
   * `response` is what the device sends back.
   */
  method RegisterRead(bus: Bus, handle: Handle?, regToRead: uint8, readBuf: array?<uint8>,
                      readBufSize: uint8, busResult: EspErr, response: seq<uint8>)
    returns (ret: EspErr)
    requires readBuf != null ==> readBufSize <= readBuf.Length
    requires |response| == readBufSize
    modifies bus, readBuf
    ensures handle == null || readBuf == null || readBufSize == 0 ==>
      && ret == ESP_ERR_INVALID_ARG
      && bus.log == old(bus.log)
      && (readBuf != null ==> readBuf[..] == old(readBuf[..]))
    ensures handle != null && readBuf != null && readBufSize > 0 ==>
      && bus.log == old(bus.log) + [TransmitReceive(handle.deviceHandle, [regToRead], readBufSize,
                                                    handle.transactionTimeoutMs)]
      && ret == busResult
      && (busResult == ESP_OK ==> readBuf[..readBufSize] == response)
      && readBuf[readBufSize..] == old(readBuf[readBufSize..])
    ensures ret == ESP_OK <==>
      handle != null && readBuf != null && readBufSize > 0 && busResult == ESP_OK
  {
    if handle == null {
      return ESP_ERR_INVALID_ARG;
    }
    if readBuf == null || readBufSize == 0 {
      return ESP_ERR_INVALID_ARG;
    }
    ret := bus.TransmitReceiveCall(handle.deviceHandle, [regToRead], readBuf, readBufSize,
                                   handle.transactionTimeoutMs, busResult, response);
  }

  /**
   * at42qt2120_register_write: rejects a missing handle, a missing buffer or
   * a zero size without touching the bus; otherwise sends [reg, payload...]
   * in exactly one transmit with the handle's time-out and returns the bus
   * result unchanged, with no retry.
   */
  method RegisterWrite(bus: Bus, handle: Handle?, regToWrite: uint8, writeBuf: array?<uint8>,
                       writeBufSize: uint8, busResult: EspErr)
    returns (ret: EspErr)
    requires writeBuf != null ==> writeBufSize <= writeBuf.Length
    modifies bus
    ensures handle == null || writeBuf == null || writeBufSize == 0 ==>
      ret == ESP_ERR_INVALID_ARG && bus.log == old(bus.log)
    ensures handle != null && writeBuf != null && writeBufSize > 0 ==>
      && bus.log == old(bus.log) + [Transmit(handle.deviceHandle, Frame(regToWrite, writeBuf[..writeBufSize]),
                                             handle.transactionTimeoutMs)]
      && ret == busResult
    ensures ret == ESP_OK <==>
      handle != null && writeBuf != null && writeBufSize > 0 && busResult == ESP_OK
  {
    if handle == null {
      return ESP_ERR_INVALID_ARG;
    }
    if writeBuf == null || writeBufSize == 0 {
      return ESP_ERR_INVALID_ARG;
    }
    var buffer := BuildFrame(regToWrite, writeBuf, writeBufSize);
    ret := bus.TransmitCall(handle.deviceHandle, buffer, handle.transactionTimeoutMs, busResult);
  }
}
