/**
 * `Op` and its `Debug` impl: the one-line disassembly of an instruction word.
 * The source formats through a visitor over `Op::decode`; here `Disasm`
 * is a function of the decoded `Instruction`.
 */
module Disassembly {
  import opened Prelude
  import opened Nibbles
  import opened RegisterIndex
  import opened Addresses
  import opened Decoding
  import Fmt

  /** `Op`: a 16-bit CHIP-8 instruction word. */
  datatype Op = Op(word: U16)

  /** `{c:02X}` on a byte: two upper-case hex digits. */
  function Byte(c: bv8): (s: string)
    ensures |s| == 2 && Fmt.Parse(s, 16) == c as int
    ensures forall k :: 0 <= k < 2 ==> Fmt.IsHexDigit(s[k], true)
  {
    Fmt.HexRoundTrip(c as int, 2, true);
    assert Fmt.Pow16(2) == 0x100;
    Fmt.HexWidth(c as int, 2, true);
    Fmt.Hex(c as int, 2, true)
  }

  function Reg(v: V): string { RegisterIndex.Display(v) }
  function At(a: Addr): string { Addresses.Display(a) }

  /** The text the `Debug` visitor writes for one decoded instruction. */
  function Disasm(i: Instruction): string {
    match i
    case Invalid(op) => "invalid ; 0x" + Fmt.Hex(op, 4, true)
    case CallMcs(a) => "call_mcs " + At(a)
    case DisplayClear => "display_clear"
    case FlowReturn => "return"
    case FlowGoto(a) => "pc <- " + At(a)
    case FlowCall(a) => "call " + At(a)
    case SkipIfVEqC(v, c) => "skip_if " + Reg(v) + " == 0x" + Byte(c)
    case SkipIfVNeC(v, c) => "skip_if " + Reg(v) + " != 0x" + Byte(c)
    case SkipIfVEqV(vx, vy) => "skip_if " + Reg(vx) + " == " + Reg(vy)
    case SetVC(vx, c) => Reg(vx) + " <- 0x" + Byte(c)
    case AddVC(vx, c) => Reg(vx) + " <- " + Reg(vx) + " + 0x" + Byte(c)
    case SetVV(vx, vy) => Reg(vx) + " <- " + Reg(vy)
    case BitorVV(vx, vy) => Reg(vx) + " <- " + Reg(vx) + " | " + Reg(vy)
    case BitandVV(vx, vy) => Reg(vx) + " <- " + Reg(vx) + " & " + Reg(vy)
    case BitxorVV(vx, vy) => Reg(vx) + " <- " + Reg(vx) + " ^ " + Reg(vy)
    case AddVV(vx, vy) => Reg(vx) + " <- " + Reg(vx) + " + " + Reg(vy)
    case SubVV(vx, vy) => Reg(vx) + " <- " + Reg(vx) + " - " + Reg(vy)
    case Shr1V(vx, vy) => Reg(vx) + " <- " + Reg(vx) + " >> 1 ; " + Reg(vy)
    case SubVVAlt(vx, vy) => Reg(vx) + " <- " + Reg(vy) + " - " + Reg(vx)
    case Shl1V(vx, vy) => Reg(vx) + " <- " + Reg(vx) + " << 1 ; " + Reg(vy)
    case SkipIfVNeV(vx, vy) => "skip_if " + Reg(vx) + " != " + Reg(vy)
    case SetIC(c) => "i <- " + At(c)
    case SetPcV0PlusC(c) => "pc <- V0 + " + At(c)
    case SetVRandMask(v, mask) => Reg(v) + " <- rand() & 0x" + Byte(mask)
    case DrawXYH(vx, vy, h) => "draw_sprite(x=" + Reg(vx) + ", y=" + Reg(vy) + ", h=" + Nibbles.Display(h) + ", sprite=i)"
    case SkipIfPressed(key) => "skip_if key_pressed(" + Reg(key) + ")"
    case SkipUnlessPressed(key) => "skip_if !key_pressed(" + Reg(key) + ")"
    case GetDelayTimer(v) => Reg(v) + " <- delay_timer"
    case AwaitKey(v) => Reg(v) + " <- get_key()"
    case SetDelayTimer(v) => "delay_timer <- " + Reg(v)
    case SetSoundTimer(v) => "sound_timer <- " + Reg(v)
    case AddIV(v) => "i <- i + " + Reg(v)
    case SetISprite(v) => "i <- sprites[" + Reg(v) + "]"
    case SetIBcd(v) => "i[0..3] <- bcd(" + Reg(v) + ")"
    case RegDump(v) => "i[0..=" + Fmt.Dec(ToU8(v.n)) + "] <- [V0..=" + Reg(v) + "]"
    case RegLoad(v) => "[V0..=" + Reg(v) + "] <- i[0..=" + Fmt.Dec(ToU8(v.n)) + "]"
  }

  /** `<Op as Debug>::fmt`. */
  function Debug(op: Op): string {
    Disasm(Decode(op.word))
  }

  /**
   * A word prints as `invalid ; 0x` exactly when it decodes to `invalid`, and
   * then the four upper-case digits that follow read back as the word.
   */
  lemma {:induction false} DebugInvalid(op: Op)
    ensures Decode(op.word).Invalid? <==> StartsIn(Debug(op))
    ensures Decode(op.word).Invalid? ==>
      && |Debug(op)| == 16 && Debug(op)[..12] == "invalid ; 0x"
      && Fmt.Parse(Debug(op)[12..], 16) == op.word
  {
    DecodeWellFormed(op.word);
    var i := Decode(op.word);
    if i.Invalid? {
      var digits := Fmt.Hex(op.word, 4, true);
      assert Fmt.Pow16(4) == 0x1_0000;
      Fmt.HexWidth(op.word, 4, true);
      Fmt.HexRoundTrip(op.word, 4, true);
      assert Debug(op)[12..] == digits;
    } else {
      NotInvalidPrefix(i);
    }
  }

  predicate StartsIn(s: string) {
    |s| >= 2 && s[0] == 'i' && s[1] == 'n'
  }

  /** Only the `invalid` line starts with "in". */
  lemma NotInvalidPrefix(i: Instruction)
    requires !i.Invalid?
    ensures !StartsIn(Disasm(i))
  {
    if i.SetIC? || i.AddIV? || i.SetISprite? || i.SetIBcd? || i.RegDump? {
      AssignsToI(i);
    } else if i.SkipIfVEqC? || i.SkipIfVNeC? || i.SkipIfVEqV? || i.SkipIfVNeV? || i.SkipIfPressed? || i.SkipUnlessPressed? {
      SkipsStartWithS(i);
    } else if i.CallMcs? || i.DisplayClear? || i.FlowReturn? || i.FlowGoto? || i.FlowCall? || i.SetPcV0PlusC?
      || i.DrawXYH? || i.SetDelayTimer? || i.SetSoundTimer? || i.RegLoad? {
      OthersStartElsewhere(i);
    } else {
      assert Disasm(i)[0] == 'V';
    }
  }

  lemma AssignsToI(i: Instruction)
    requires i.SetIC? || i.AddIV? || i.SetISprite? || i.SetIBcd? || i.RegDump?
    ensures !StartsIn(Disasm(i))
  {
    assert Disasm(i)[1] in {' ', '['};
  }

  lemma SkipsStartWithS(i: Instruction)
    requires i.SkipIfVEqC? || i.SkipIfVNeC? || i.SkipIfVEqV? || i.SkipIfVNeV? || i.SkipIfPressed? || i.SkipUnlessPressed?
    ensures !StartsIn(Disasm(i))
  {
    assert Disasm(i)[0] == 's';
  }

  lemma OthersStartElsewhere(i: Instruction)
    requires i.CallMcs? || i.DisplayClear? || i.FlowReturn? || i.FlowGoto? || i.FlowCall? || i.SetPcV0PlusC?
      || i.DrawXYH? || i.SetDelayTimer? || i.SetSoundTimer? || i.RegLoad?
    ensures !StartsIn(Disasm(i))
  {
    assert Disasm(i)[0] in {'c', 'd', 'r', 'p', 's', '['};
  }

}
