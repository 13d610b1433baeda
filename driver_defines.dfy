/**
 * The short register header (include/esp_at42at2120_defines.h), the one the
 * driver and the dimmer example actually include: the slave address and the
 * six registers they use.
 */
module DriverDefines {
  import opened Bytes
  import RegisterMap

  const SlaveAddress: uint8 := 0x1C

  const RegChipId: uint8 := 0x00
  const RegDetectionStatus: uint8 := 0x02
  const RegSliderPosition: uint8 := 0x05
  const RegCalibrate: uint8 := 0x06
  const RegReset: uint8 := 0x07
  const RegSliderOptions: uint8 := 0x0E

  /** The six registers of the short header, in its order. */
  const InUse: seq<uint8> :=
    [RegChipId, RegDetectionStatus, RegSliderPosition, RegCalibrate, RegReset, RegSliderOptions]

  /** The same registers, named as in the full table. */
  const InUseNames: seq<RegisterMap.General> :=
    [RegisterMap.ChipId, RegisterMap.DetectionStatus, RegisterMap.SliderPosition,
     RegisterMap.Calibrate, RegisterMap.Reset, RegisterMap.SliderOptions]

  /** The short header agrees with the full table, entry by entry. */
  lemma AgreesWithFullTable()
    ensures SlaveAddress == RegisterMap.SLAVE_ADDRESS
    ensures |InUse| == |InUseNames| == 6
    ensures forall i | 0 <= i < 6 ::
      InUse[i] == RegisterMap.Address(RegisterMap.GeneralReg(InUseNames[i]))
  {
  }

  /** The six addresses are pairwise distinct. */
  lemma InUseDistinct()
    ensures forall i, j | 0 <= i < 6 && 0 <= j < 6 :: InUse[i] == InUse[j] ==> i == j
  {
    AgreesWithFullTable();
    forall i, j | 0 <= i < 6 && 0 <= j < 6 && InUse[i] == InUse[j]
      ensures i == j
    {
      RegisterMap.AddressInjective(
        RegisterMap.GeneralReg(InUseNames[i]), RegisterMap.GeneralReg(InUseNames[j]));
      assert InUseNames[i] == InUseNames[j];
    }
  }

  /** All six lie in the general block 0x00 to 0x0F. */
  lemma InUseGeneral()
    ensures forall i | 0 <= i < 6 :: InUse[i] < 0x10
    ensures forall i | 0 <= i < 6 ::
      RegisterMap.Decode(InUse[i]) == RegisterMap.Some(RegisterMap.GeneralReg(InUseNames[i]))
  {
    AgreesWithFullTable();
    forall i | 0 <= i < 6
      ensures RegisterMap.Decode(InUse[i]) == RegisterMap.Some(RegisterMap.GeneralReg(InUseNames[i]))
    {
      RegisterMap.DecodeAddress(RegisterMap.GeneralReg(InUseNames[i]));
    }
  }
}
