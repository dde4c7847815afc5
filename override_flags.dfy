/** The override bit flags of `utils/overrideFlags.hpp`, on two's-complement `int` values. */
module OverrideFlags {
  /** `NONE` is written `1 >> 1`, a right shift that yields 0. */
  const NONE: int := 1 / 2
  const OVERRIDE: int := 1
  const OVERRIDEALL: int := 2

  /** Bit `k` of `v` in two's complement (floor division by a positive power of two). */
  function Bit(v: int, k: nat): bool
  {
    (v / Pow2(k)) % 2 == 1
  }

  function Pow2(k: nat): (r: int)
    ensures r >= 1
  {
    if k == 0 then 1 else 2 * Pow2(k - 1)
  }

  /** `v & flag` is non-zero, for the single-bit flags `OVERRIDE` and `OVERRIDEALL`. */
  function HasFlag(v: int, flag: int): (r: bool)
    requires flag == OVERRIDE || flag == OVERRIDEALL
    ensures v == flag || v == OVERRIDE + OVERRIDEALL ==> r
    ensures v == NONE || v == OVERRIDE + OVERRIDEALL - flag ==> !r
  {
    if flag == OVERRIDE then v % 2 == 1 else (v / 2) % 2 == 1
  }

  /** The test of a flag reads exactly that flag's bit. */
  lemma HasFlagIsBit(v: int, flag: int)
    requires flag == OVERRIDE || flag == OVERRIDEALL
    ensures HasFlag(v, flag) <==> Bit(v, if flag == OVERRIDE then 0 else 1)
  {
    assert Pow2(0) == 1 && Pow2(1) == 2;
  }

  /**
   * `inOverrideFlags`: the OR of `v & NONE`, `v & OVERRIDE` and `v & OVERRIDEALL`
   * is `v & 3`, which in two's complement is `v mod 4`; the value is true
   * exactly when bit 0 or bit 1 of `v` is set.
   */
  function InOverrideFlags(v: int): (r: bool)
    ensures r <==> Bit(v, 0) || Bit(v, 1)
  {
    LowBits(v);
    v % 4 != 0
  }

  lemma LowBits(v: int)
    ensures v % 4 == (if Bit(v, 0) then 1 else 0) + (if Bit(v, 1) then 2 else 0)
  {
    assert Pow2(0) == 1 && Pow2(1) == 2;
    var q := v / 4;
    var m := v % 4;
    assert v == 4 * q + m;
    assert v / 2 == 2 * q + m / 2;
    assert v % 2 == m % 2;
  }

  /** The three named values are 0, 1 and 2; only the last two are flags, and a higher bit alone is not one. */
  lemma FlagValues()
    ensures NONE == 0 && OVERRIDE == 1 && OVERRIDEALL == 2
    ensures !InOverrideFlags(NONE) && InOverrideFlags(OVERRIDE) && InOverrideFlags(OVERRIDEALL)
    ensures InOverrideFlags(OVERRIDE + OVERRIDEALL) && !InOverrideFlags(4)
  {
  }

  /** `OVERRIDEALL` carries its own bit. */
  lemma OverrideAllIsSet()
    ensures HasFlag(OVERRIDEALL, OVERRIDEALL)
  {
  }
}
