/** `Addr`: a 16-bit address of which memory uses the low 12 bits, and the named memory regions. */
module Addresses {
  import opened Prelude
  import Fmt

  datatype Addr = Addr(value: U16)

  function ToU16(a: Addr): U16 { a.value }
  function ToUsize(a: Addr): nat { a.value }

  /** `to_u16` and `to_usize` give the same number, below 0x10000, and lose nothing of the address. */
  lemma Conversions(a: Addr)
    ensures ToUsize(a) == ToU16(a) < 0x1_0000
    ensures Addr(ToU16(a)) == a
  {
  }

  const SYSTEM_INTERPRETER_FONTS_START: Addr := Addr(0x000)
  const SYSTEM_INTERPRETER_FONTS_END: Addr := Addr(0x200)
  const TYPICAL_FONTS_START: Addr := Addr(0x050)
  const TYPICAL_FONTS_END: Addr := Addr(0x050)
  const PROGRAM_START_TYPICAL: Addr := Addr(0x200)
  const PROGRAM_START_ETI_660: Addr := Addr(0x600)
  const SYSTEM_STACK_ETC_START: Addr := Addr(0xEA0)
  const SYSTEM_DISPLAY_START: Addr := Addr(0xF00)

  /** `Display`/`Debug`: "0x" and the value in lower-case hex, zero-padded to three digits. */
  function Display(a: Addr): (s: string)
    ensures 5 <= |s| && s[..2] == "0x"
    ensures forall k :: 2 <= k < |s| ==> Fmt.IsHexDigit(s[k], false)
    ensures 5 < |s| ==> s[2] != '0'
  {
    "0x" + Fmt.Hex(a.value, 3, false)
  }

  /** The printed address reads back as the address; a 12-bit address takes exactly three digits. */
  lemma {:induction false} DisplayRoundTrip(a: Addr)
    ensures Fmt.Parse(Display(a)[2..], 16) == a.value
    ensures a.value < 0x1000 <==> |Display(a)| == 5
  {
    var digits := Fmt.Hex(a.value, 3, false);
    assert Display(a)[2..] == digits;
    Fmt.HexRoundTrip(a.value, 3, false);
    assert Fmt.Pow16(3) == 0x1000;
    if a.value < 0x1000 {
      Fmt.HexWidth(a.value, 3, false);
    } else {
      assert a.value / 16 >= 0x100;
      assert |Fmt.Hex(a.value / 16, 2, false)| >= 3 by { Fmt.HexAtLeast(a.value / 16, 2, false); }
    }
  }

  /** The layout the region constants describe. */
  lemma RegionLayout()
    ensures SYSTEM_DISPLAY_START.value + 256 == 0x1000 && 256 * 8 == 64 * 32
    ensures SYSTEM_DISPLAY_START.value - SYSTEM_STACK_ETC_START.value == 96
    ensures PROGRAM_START_TYPICAL == SYSTEM_INTERPRETER_FONTS_END
    ensures SYSTEM_INTERPRETER_FONTS_END.value < PROGRAM_START_ETI_660.value
    ensures SYSTEM_INTERPRETER_FONTS_START.value <= TYPICAL_FONTS_START.value < SYSTEM_INTERPRETER_FONTS_END.value
  {
  }
}
