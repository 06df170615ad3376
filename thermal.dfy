/**
 * The IA32 thermal mediator (thermal-reading/component/thermal.h): the
 * core temperature is read from two model-specific registers as the
 * distance, in degrees, between the thermal-control target and the
 * digital readout. The two register words are parameters here, since
 * reading a model-specific register is a privileged instruction.
 */
module Thermal {
  /** The addresses of IA32_THERM_STATUS and IA32_TEMPERATURE_TARGET. */
  const IA32_THERM_STATUS: bv32 := 0x19c
  const IA32_TEMPERATURE_TARGET: bv32 := 0x1a2

  /** The digital readout: bits 16 to 22 of IA32_THERM_STATUS. */
  function ThermField(thermRead: bv64): (f: bv64)
    ensures f < 0x80
  {
    (thermRead >> 16) & ((1 << (22 - 16 + 1)) - 1)
  }

  /** The thermal-control target: bits 16 to 23 of IA32_TEMPERATURE_TARGET. */
  function TargetField(targetRead: bv64): (f: bv64)
    ensures f < 0x100
  {
    (targetRead >> 16) & ((1 << (23 - 16 + 1)) - 1)
  }

  /**
   * temperature(): the 64-bit difference of the two fields, truncated to
   * the 32 bits of an unsigned int.
   */
  function Temperature(thermRead: bv64, targetRead: bv64): (r: bv32)
  {
    ((TargetField(targetRead) - ThermField(thermRead)) & 0xffff_ffff) as bv32
  }


  /**
   * Truncating the 64-bit difference gives the difference of the two fields
   * in 32-bit unsigned arithmetic, that is, modulo 2^32.
   */
  lemma TemperatureModulo(thermRead: bv64, targetRead: bv64)
    ensures Temperature(thermRead, targetRead) == TargetField(targetRead) as bv32 - ThermField(thermRead) as bv32
  {
  }

  /** Below the target, the result is the plain difference of the fields. */
  lemma TemperatureBelowTarget(thermRead: bv64, targetRead: bv64)
    requires ThermField(thermRead) <= TargetField(targetRead)
    ensures Temperature(thermRead, targetRead) as bv64 == TargetField(targetRead) - ThermField(thermRead)
  {
  }

  /** Below the target, the result is at most 255. */
  lemma TemperatureBelowTargetBound(thermRead: bv64, targetRead: bv64)
    requires ThermField(thermRead) <= TargetField(targetRead)
    ensures Temperature(thermRead, targetRead) <= 0xff
  {
  }

  /** A readout above the target wraps around to one of the top 127 values of an unsigned int. */
  lemma TemperatureAboveTarget(thermRead: bv64, targetRead: bv64)
    requires TargetField(targetRead) < ThermField(thermRead)
    ensures Temperature(thermRead, targetRead) >= 0xffff_ff81
  {
  }

  /** The readout depends on bits 16 to 22 of its register only. */
  lemma ThermIndependent(a: bv64, b: bv64)
    requires a & (0x7f << 16) == b & (0x7f << 16)
    ensures ThermField(a) == ThermField(b)
  {
  }

  /** The target depends on bits 16 to 23 of its register only. */
  lemma TargetIndependent(a: bv64, b: bv64)
    requires a & (0xff << 16) == b & (0xff << 16)
    ensures TargetField(a) == TargetField(b)
  {
  }

  /** The temperature depends on those bits of the two registers only. */
  lemma TemperatureIndependent(therm1: bv64, target1: bv64, therm2: bv64, target2: bv64)
    requires therm1 & (0x7f << 16) == therm2 & (0x7f << 16)
    requires target1 & (0xff << 16) == target2 & (0xff << 16)
    ensures Temperature(therm1, target1) == Temperature(therm2, target2)
  {
    ThermIndependent(therm1, therm2);
    TargetIndependent(target1, target2);
  }
}
