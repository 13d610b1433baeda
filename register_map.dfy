/**
 * The full register address table of the AT42QT2120 touch controller
 * (include/esp_at42qt2120_defines.h): sixteen general registers followed by
 * seven per-key blocks for the twelve keys.
 */
module RegisterMap {
  import opened Bytes

  /** Fixed 7-bit I2C address of the part. */
  const SLAVE_ADDRESS: uint8 := 0x1C

  const KEY_COUNT: nat := 12

  type KeyIndex = k: int | 0 <= k < KEY_COUNT

  /** The general registers, in the order the header lists them. */
  datatype General =
    | ChipId | FirmwareVersion | DetectionStatus | KeyStatus07To00 | KeyStatus11To08
    | SliderPosition | Calibrate | Reset | LowPowerMode | TowardTouchDrift
    | AwayFromTouchDrift | DetectionIntegrator | TouchRecalDelay | DriftHoldTime
    | SliderOptions | ChargeTime

  /** The per-key register blocks. */
  datatype KeyBlock =
    | DetectThreshold | Control | PulseScale
    | SignalMsb | SignalLsb | ReferenceMsb | ReferenceLsb

  datatype Register = GeneralReg(g: General) | KeyReg(block: KeyBlock, key: KeyIndex)

  function GeneralAddress(g: General): uint8 {
    match g
    case ChipId => 0x00
    case FirmwareVersion => 0x01
    case DetectionStatus => 0x02
    case KeyStatus07To00 => 0x03
    case KeyStatus11To08 => 0x04
    case SliderPosition => 0x05
    case Calibrate => 0x06
    case Reset => 0x07
    case LowPowerMode => 0x08
    case TowardTouchDrift => 0x09
    case AwayFromTouchDrift => 0x0A
    case DetectionIntegrator => 0x0B
    case TouchRecalDelay => 0x0C
    case DriftHoldTime => 0x0D
    case SliderOptions => 0x0E
    case ChargeTime => 0x0F
  }

  // The per-key tables, key 0 first, with the addresses exactly as defined.
  const KEY_DTHR: seq<uint8> :=
    [0x10, 0x11, 0x12, 0x13, 0x14, 0x15, 0x16, 0x17, 0x18, 0x19, 0x1A, 0x1B]
  const KEY_CTRL: seq<uint8> :=
    [0x1C, 0x1D, 0x1E, 0x1F, 0x20, 0x21, 0x22, 0x23, 0x24, 0x25, 0x26, 0x27]
  const KEY_PULSE_SCALE: seq<uint8> :=
    [0x28, 0x29, 0x2A, 0x2B, 0x2C, 0x2D, 0x2E, 0x2F, 0x30, 0x31, 0x32, 0x33]
  const KEY_MSB_SIGNAL: seq<uint8> :=
    [0x34, 0x36, 0x38, 0x3A, 0x3C, 0x3E, 0x40, 0x42, 0x44, 0x46, 0x48, 0x4A]
  const KEY_LSB_SIGNAL: seq<uint8> :=
    [0x35, 0x37, 0x39, 0x3B, 0x3D, 0x3F, 0x41, 0x43, 0x45, 0x47, 0x49, 0x4B]
  const KEY_MSB_REFERENCE: seq<uint8> :=
    [0x4C, 0x4E, 0x50, 0x52, 0x54, 0x56, 0x58, 0x5A, 0x5C, 0x5E, 0x60, 0x62]
  const KEY_LSB_REFERENCE: seq<uint8> :=
    [0x4D, 0x4F, 0x51, 0x53, 0x55, 0x57, 0x59, 0x5B, 0x5D, 0x5F, 0x61, 0x63]

  function KeyAddress(b: KeyBlock, k: KeyIndex): uint8 {
    match b
    case DetectThreshold => KEY_DTHR[k]
    case Control => KEY_CTRL[k]
    case PulseScale => KEY_PULSE_SCALE[k]
    case SignalMsb => KEY_MSB_SIGNAL[k]
    case SignalLsb => KEY_LSB_SIGNAL[k]
    case ReferenceMsb => KEY_MSB_REFERENCE[k]
    case ReferenceLsb => KEY_LSB_REFERENCE[k]
  }

  /** The address the header assigns to a register. */
  function Address(r: Register): uint8 {
    match r
    case GeneralReg(g) => GeneralAddress(g)
    case KeyReg(b, k) => KeyAddress(b, k)
  }

  // ---------------------------------------------------------------------
  // Reference definition: the layout as base + stride, and its inverse.
  // ---------------------------------------------------------------------

  /** First address of each per-key block and its per-key stride. */
  function BlockBase(b: KeyBlock): nat {
    match b
    case DetectThreshold => 0x10
    case Control => 0x1C
    case PulseScale => 0x28
    case SignalMsb => 0x34
    case SignalLsb => 0x35
    case ReferenceMsb => 0x4C
    case ReferenceLsb => 0x4D
  }

  function BlockStride(b: KeyBlock): nat {
    match b
    case SignalMsb | SignalLsb | ReferenceMsb | ReferenceLsb => 2
    case _ => 1
  }

  const GENERAL_ORDER: seq<General> :=
    [ChipId, FirmwareVersion, DetectionStatus, KeyStatus07To00, KeyStatus11To08,
     SliderPosition, Calibrate, Reset, LowPowerMode, TowardTouchDrift,
     AwayFromTouchDrift, DetectionIntegrator, TouchRecalDelay, DriftHoldTime,
     SliderOptions, ChargeTime]

  /** The register at an address, or None past the end of the map. */
  function Decode(a: uint8): Option<Register> {
    if a < 0x10 then Some(GeneralReg(GENERAL_ORDER[a]))
    else if a < 0x1C then Some(KeyReg(DetectThreshold, a - 0x10))
    else if a < 0x28 then Some(KeyReg(Control, a - 0x1C))
    else if a < 0x34 then Some(KeyReg(PulseScale, a - 0x28))
    else if a < 0x4C then
      Some(KeyReg(if (a - 0x34) % 2 == 0 then SignalMsb else SignalLsb, (a - 0x34) / 2))
    else if a < 0x64 then
      Some(KeyReg(if (a - 0x4C) % 2 == 0 then ReferenceMsb else ReferenceLsb, (a - 0x4C) / 2))
    else None
  }

  datatype Option<T> = None | Some(value: T)

  // ---------------------------------------------------------------------
  // Layout lemmas
  // ---------------------------------------------------------------------

  /** Every per-key register sits at its block's base plus the key's stride offset. */
  lemma KeyLayout(b: KeyBlock, k: KeyIndex)
    ensures KeyAddress(b, k) == BlockBase(b) + BlockStride(b) * k
  {
    assert KEY_DTHR == seq(12, i => 0x10 + i);
    assert KEY_CTRL == seq(12, i => 0x1C + i);
    assert KEY_PULSE_SCALE == seq(12, i => 0x28 + i);
    assert KEY_MSB_SIGNAL == seq(12, i => 0x34 + 2 * i);
    assert KEY_LSB_SIGNAL == seq(12, i => 0x35 + 2 * i);
    assert KEY_MSB_REFERENCE == seq(12, i => 0x4C + 2 * i);
    assert KEY_LSB_REFERENCE == seq(12, i => 0x4D + 2 * i);
  }

  /** The detection threshold of key k is at 0x10 + k. */
  lemma ThresholdLayout(k: KeyIndex)
    ensures Address(KeyReg(DetectThreshold, k)) == 0x10 + k
  {
    KeyLayout(DetectThreshold, k);
  }

  /** The control register of key k is at 0x1C + k. */
  lemma ControlLayout(k: KeyIndex)
    ensures Address(KeyReg(Control, k)) == 0x1C + k
  {
    KeyLayout(Control, k);
  }

  /** The pulse-scale register of key k is at 0x28 + k. */
  lemma PulseScaleLayout(k: KeyIndex)
    ensures Address(KeyReg(PulseScale, k)) == 0x28 + k
  {
    KeyLayout(PulseScale, k);
  }

  /** The signal MSB of key k is at 0x34 + 2k and its LSB directly follows it. */
  lemma SignalLayout(k: KeyIndex)
    ensures Address(KeyReg(SignalMsb, k)) == 0x34 + 2 * k
    ensures Address(KeyReg(SignalLsb, k)) == Address(KeyReg(SignalMsb, k)) + 1
  {
    KeyLayout(SignalMsb, k);
    KeyLayout(SignalLsb, k);
  }

  /** The reference MSB of key k is at 0x4C + 2k and its LSB directly follows it. */
  lemma ReferenceLayout(k: KeyIndex)
    ensures Address(KeyReg(ReferenceMsb, k)) == 0x4C + 2 * k
    ensures Address(KeyReg(ReferenceLsb, k)) == Address(KeyReg(ReferenceMsb, k)) + 1
  {
    KeyLayout(ReferenceMsb, k);
    KeyLayout(ReferenceLsb, k);
  }

  /** The general registers fill 0x00 to 0x0F, one register per address, in order. */
  lemma GeneralLayout(a: nat)
    requires a < 0x10
    ensures GeneralAddress(GENERAL_ORDER[a]) == a
  {
    assert forall i | 0 <= i < 16 :: GeneralAddress(GENERAL_ORDER[i]) == i;
  }

  /** Decoding the address of any register gives back that register. */
  lemma DecodeAddress(r: Register)
    ensures Decode(Address(r)) == Some(r)
  {
    match r
    case GeneralReg(g) =>
      GeneralOrder(g);
    case KeyReg(b, k) =>
      KeyDecode(b, k);
  }

  /** The general register at a general register's address is that register. */
  lemma GeneralOrder(g: General)
    ensures GeneralAddress(g) < 0x10 && GENERAL_ORDER[GeneralAddress(g)] == g
  {
    match g
    case ChipId =>
    case FirmwareVersion =>
    case DetectionStatus =>
    case KeyStatus07To00 =>
    case KeyStatus11To08 =>
    case SliderPosition =>
    case Calibrate =>
    case Reset =>
    case LowPowerMode =>
    case TowardTouchDrift =>
    case AwayFromTouchDrift =>
    case DetectionIntegrator =>
    case TouchRecalDelay =>
    case DriftHoldTime =>
    case SliderOptions =>
    case ChargeTime =>
  }

  /** Decoding a per-key address gives back its block and key. */
  lemma KeyDecode(b: KeyBlock, k: KeyIndex)
    ensures Decode(KeyAddress(b, k)) == Some(KeyReg(b, k))
  {
    KeyLayout(b, k);
    var a := BlockBase(b) + BlockStride(b) * k;
    match b
    case DetectThreshold =>
    case Control =>
    case PulseScale =>
    case SignalMsb =>
      assert (a - 0x34) % 2 == 0 && (a - 0x34) / 2 == k;
    case SignalLsb =>
      assert (a - 0x34) % 2 == 1 && (a - 0x34) / 2 == k;
    case ReferenceMsb =>
      assert (a - 0x4C) % 2 == 0 && (a - 0x4C) / 2 == k;
    case ReferenceLsb =>
      assert (a - 0x4C) % 2 == 1 && (a - 0x4C) / 2 == k;
  }

  /** Every address that decodes names a register at exactly that address. */
  lemma AddressDecode(a: uint8)
    ensures Decode(a).Some? <==> a < 0x64
    ensures Decode(a).Some? ==> Address(Decode(a).value) == a
  {
    if a < 0x10 {
      GeneralLayout(a);
    } else if a < 0x64 {
      KeyAddressDecode(a);
    }
  }

  /** Every address of the per-key area decodes to a per-key register at that address. */
  lemma KeyAddressDecode(a: uint8)
    requires 0x10 <= a < 0x64
    ensures Decode(a).Some? && Decode(a).value.KeyReg?
    ensures KeyAddress(Decode(a).value.block, Decode(a).value.key) == a
  {
    if a < 0x1C {
      KeyLayout(DetectThreshold, a - 0x10);
    } else if a < 0x28 {
      KeyLayout(Control, a - 0x1C);
    } else if a < 0x34 {
      KeyLayout(PulseScale, a - 0x28);
    } else if a < 0x4C {
      var k := (a - 0x34) / 2;
      if (a - 0x34) % 2 == 0 {
        assert a == 0x34 + 2 * k;
        KeyLayout(SignalMsb, k);
      } else {
        assert a == 0x35 + 2 * k;
        KeyLayout(SignalLsb, k);
      }
    } else {
      var k := (a - 0x4C) / 2;
      if (a - 0x4C) % 2 == 0 {
        assert a == 0x4C + 2 * k;
        KeyLayout(ReferenceMsb, k);
      } else {
        assert a == 0x4D + 2 * k;
        KeyLayout(ReferenceLsb, k);
      }
    }
  }

  /** All register addresses are pairwise distinct. */
  lemma AddressInjective(r1: Register, r2: Register)
    ensures Address(r1) == Address(r2) <==> r1 == r2
  {
    DecodeAddress(r1);
    DecodeAddress(r2);
  }

  /** The addresses of all 100 registers are exactly 0x00 to 0x63. */
  lemma AddressCoverage(a: int)
    ensures (exists r :: Address(r) == a) <==> 0 <= a < 0x64
  {
    if 0 <= a < 0x64 {
      AddressDecode(a);
      assert Address(Decode(a).value) == a;
    }
    if r :| Address(r) == a {
      DecodeAddress(r);
      AddressDecode(Address(r));
    }
  }
}
