/**
 * The pure rules of the STM32 platform layer: the radio ID derived from the chip's
 * unique ID, the reset-cause classification done at start-up, the names of the
 * reset reasons, and the EEPROM size check.
 */
module Stm32 {
  import opened Wrappers

  // ---------------------------------------------------------------------------
  // Chip ID
  // ---------------------------------------------------------------------------

  /** The low 24 bits of an ID, the part that is transmitted as the aircraft address. */
  function Low24(id: bv32): bv32
  {
    id & 0x00FF_FFFF
  }

  /** The congested FLARM address block 0xDD0000..0xDFFFFF. */
  predicate InFlarmRange(id: bv32)
  {
    0xDD_0000 <= Low24(id) <= 0xDF_FFFF
  }

  /** The remap step of STM32_getChipId: an ID in the FLARM block is moved up by 0x100000. */
  function Remap(id: bv32): (r: bv32)
    ensures !InFlarmRange(r)
    ensures r & 0xFF00_0000 == id & 0xFF00_0000
  {
    if InFlarmRange(id) then id + 0x10_0000 else id
  }

  /** The remap changes an ID exactly when it lies in the FLARM block, and then adds 0x100000
      without wrapping around. */
  lemma RemapMovesOnlyFlarmIds(id: bv32)
    ensures Remap(id) != id <==> InFlarmRange(id)
    ensures InFlarmRange(id) ==> Remap(id) as int == id as int + 0x10_0000
    ensures InFlarmRange(id) ==> 0xED_0000 <= Low24(Remap(id)) <= 0xEF_FFFF
  {
  }

  /** The low 32 bits of a 64-bit constant, `& 0xFFFFFFFFU` in a 32-bit result. */
  function Low32(a: bv64): (r: bv32)
    ensures r as bv64 == a & 0xFFFF_FFFF
  {
    (a & 0xFFFF_FFFF) as bv32
  }

  /** STM32_getChipId. `address` is the build-time SOFTRF_ADDRESS, when one is defined (a
      64-bit constant here); otherwise the three words of the chip's unique ID are folded by
      XOR and remapped. */
  function ChipId(address: Option<bv64>, w0: bv32, w1: bv32, w2: bv32): (id: bv32)
    ensures address.None? ==> !InFlarmRange(id)
    ensures address.Some? ==> id as bv64 == address.value & 0xFFFF_FFFF
  {
    if address.Some? then Low32(address.value) else Remap(w0 ^ w1 ^ w2)
  }

  /** Without an override the ID is the XOR of the three words, raised by 0x100000 exactly when
      its low 24 bits are in the FLARM block, with the top byte of the XOR kept. */
  lemma ChipIdFromUid(w0: bv32, w1: bv32, w2: bv32)
    ensures var x := w0 ^ w1 ^ w2;
            var id := ChipId(None, w0, w1, w2);
            && id as int == x as int + (if InFlarmRange(x) then 0x10_0000 else 0)
            && id & 0xFF00_0000 == x & 0xFF00_0000
            && !InFlarmRange(id)
  {
    RemapMovesOnlyFlarmIds(w0 ^ w1 ^ w2);
  }

  /** An override is used as it is: the unique ID does not matter, and the result is not
      remapped, even when its low 24 bits are in the FLARM block. */
  lemma OverrideIsNotRemapped(a: bv64, w0: bv32, w1: bv32, w2: bv32)
    ensures ChipId(Some(a), w0, w1, w2) == ChipId(Some(a), 0, 0, 0)
    ensures InFlarmRange(Low32(a)) ==> InFlarmRange(ChipId(Some(a), w0, w1, w2))
    ensures InFlarmRange(Low32(a)) ==> Remap(ChipId(Some(a), w0, w1, w2)) != ChipId(Some(a), w0, w1, w2)
  {
    RemapMovesOnlyFlarmIds(Low32(a));
  }

  // ---------------------------------------------------------------------------
  // Reset reason
  // ---------------------------------------------------------------------------

  /** The `rst_reason` codes, in the order STM32_getResetReason lists them. */
  const ReasonDefault := 0
  const ReasonWdt := 1
  const ReasonException := 2
  const ReasonSoftWdt := 3
  const ReasonSoftRestart := 4
  const ReasonDeepSleepAwake := 5
  const ReasonExtSys := 6

  /** The RCC reset flags read at start-up. */
  datatype ResetFlags = ResetFlags(lowPower: bool, windowWatchdog: bool, independentWatchdog: bool,
                                   software: bool, powerOn: bool, pin: bool)

  const NoFlags := ResetFlags(false, false, false, false, false, false)

  /** The if-chain of STM32_setup: the first set flag decides; with none set the reason stays. */
  function ClassifyReset(f: ResetFlags, prior: int): (reason: int)
    ensures reason != prior ==> reason in {ReasonDefault, ReasonWdt, ReasonSoftWdt, ReasonSoftRestart, ReasonExtSys}
  {
    if f.lowPower then ReasonWdt
    else if f.windowWatchdog then ReasonWdt
    else if f.independentWatchdog then ReasonSoftWdt
    else if f.software then ReasonSoftRestart
    else if f.powerOn then ReasonDefault
    else if f.pin then ReasonExtSys
    else prior
  }

  /** The flags in the order the chain tests them, and the reason each one gives. */
  function FlagsInOrder(f: ResetFlags): (s: seq<bool>)
    ensures |s| == 6
  {
    [f.lowPower, f.windowWatchdog, f.independentWatchdog, f.software, f.powerOn, f.pin]
  }

  const ReasonOfFlag: seq<int> := [ReasonWdt, ReasonWdt, ReasonSoftWdt, ReasonSoftRestart, ReasonDefault, ReasonExtSys]

  /** Exactly one flag is honoured, the first set one in the order LPWR, WWDG, IWDG, SFT, POR, PIN;
      the flags after it do not matter, and with no flag set the reason is unchanged. */
  lemma ClassifyHonoursFirstFlag(f: ResetFlags, prior: int, k: nat)
    requires k < 6 && FlagsInOrder(f)[k]
    requires forall j :: 0 <= j < k ==> !FlagsInOrder(f)[j]
    ensures ClassifyReset(f, prior) == ReasonOfFlag[k]
  {
    var s := FlagsInOrder(f);
    if k > 0 { assert !s[0]; }
    if k > 1 { assert !s[1]; }
    if k > 2 { assert !s[2]; }
    if k > 3 { assert !s[3]; }
    if k > 4 { assert !s[4]; }
  }

  lemma ClassifyWithoutFlags(f: ResetFlags, prior: int)
    requires forall j :: 0 <= j < 6 ==> !FlagsInOrder(f)[j]
    ensures ClassifyReset(f, prior) == prior
  {
    var s := FlagsInOrder(f);
    assert !s[0] && !s[1] && !s[2] && !s[3] && !s[4] && !s[5];
  }

  /** STM32_getResetReason: the name of each known code, "NO_MEAN" for any other. */
  function ReasonName(reason: int): (name: string)
  {
    match reason
    case 0 => "DEFAULT"
    case 1 => "WDT"
    case 2 => "EXCEPTION"
    case 3 => "SOFT_WDT"
    case 4 => "SOFT_RESTART"
    case 5 => "DEEP_SLEEP_AWAKE"
    case 6 => "EXT_SYS"
    case _ => "NO_MEAN"
  }

  /** The seven known codes have seven different names, none of them "NO_MEAN";
      every other code is "NO_MEAN". */
  lemma ReasonNamesDistinct(a: int, b: int)
    ensures 0 <= a <= 6 && 0 <= b <= 6 && a != b ==> ReasonName(a) != ReasonName(b)
    ensures 0 <= a <= 6 ==> ReasonName(a) != "NO_MEAN"
    ensures !(0 <= a <= 6) ==> ReasonName(a) == "NO_MEAN"
  {
  }

  /** The reset bookkeeping of the platform: the RCC flags and the static `reset_info`. */
  class ResetInfo {
    var flags: ResetFlags
    var reason: int

    /** `reset_info` starts as REASON_DEFAULT_RST; the flags are whatever the hardware latched. */
    constructor (latched: ResetFlags)
      ensures flags == latched && reason == ReasonDefault
    {
      flags := latched;
      reason := ReasonDefault;
    }

    /** The reset part of STM32_setup: classify, then clear all the reset flags. */
    method Setup()
      modifies this
      ensures reason == ClassifyReset(old(flags), old(reason))
      ensures flags == NoFlags
    {
      if flags.lowPower {
        reason := ReasonWdt;            // low-power reset
      } else if flags.windowWatchdog {
        reason := ReasonWdt;            // window watchdog reset
      } else if flags.independentWatchdog {
        reason := ReasonSoftWdt;        // independent watchdog reset
      } else if flags.software {
        reason := ReasonSoftRestart;    // NVIC_SystemReset()
      } else if flags.powerOn {
        reason := ReasonDefault;        // power-on or power-down reset
      } else if flags.pin {
        reason := ReasonExtSys;         // external reset pin
      }
      flags := NoFlags;
    }

    /** STM32_getResetReason. */
    method GetResetReason() returns (name: string)
      ensures name == ReasonName(reason)
      ensures name != "NO_MEAN" <==> 0 <= reason <= 6
    {
      ReasonNamesDistinct(reason, reason);
      name := ReasonName(reason);
    }
  }

  // ---------------------------------------------------------------------------
  // EEPROM
  // ---------------------------------------------------------------------------

  /** STM32_EEPROM_begin: a requested size larger than the last EEPROM address E2END is refused. */
  function EepromBegin(size: nat, e2end: nat): (ok: bool)
    ensures ok <==> size <= e2end
  {
    !(size > e2end)
  }
}
