/**
 * The `op_debug` golden table: each word of the table disassembles to exactly
 * its listed text. `LineXXXX` states the entry for word 0xXXXX; `TextXXXX` is
 * the string arithmetic behind it, kept apart so that each proof stays small.
 */
module OpDebugTable {
  import opened Prelude
  import opened Nibbles
  import opened RegisterIndex
  import opened Addresses
  import opened Decoding
  import opened Disassembly
  import Fmt

  /** An `invalid` entry: the word's four upper-case hex digits follow the prefix. */
  lemma InvalidLine(w: U16, a: char, b: char, c: char, d: char)
    requires 0x1000 <= w && Decode(w) == Invalid(w)
    requires a == Fmt.Digit(w / 0x1000, true) && b == Fmt.Digit(w / 0x100 % 0x10, true)
    requires c == Fmt.Digit(w / 0x10 % 0x10, true) && d == Fmt.Digit(w % 0x10, true)
    ensures Disassembly.Debug(Op(w)) == "invalid ; 0x" + [a, b, c, d]
  {
    Fmt.HexFour(w, true);
  }

  lemma Text0123(s: string, p0: string)
    requires s == "call_mcs " + p0
    requires p0 == "0x123"
    ensures s == "call_mcs 0x123"
  {
  }

  lemma Line0123()
    ensures Disassembly.Debug(Op(0x0123)) == "call_mcs 0x123"
  {
    assert Decode(0x0123) == CallMcs(Addr(0x123));
    assert Disasm(CallMcs(Addr(0x123))) == "call_mcs " + At(Addr(0x123));
    Text0123(Disasm(CallMcs(Addr(0x123))), At(Addr(0x123)));
  }

  lemma Line00E0()
    ensures Disassembly.Debug(Op(0x00E0)) == "display_clear"
  {
    assert Decode(0x00E0) == DisplayClear;
  }

  lemma Line00EE()
    ensures Disassembly.Debug(Op(0x00EE)) == "return"
  {
    assert Decode(0x00EE) == FlowReturn;
  }

  lemma Text1234(s: string, p0: string)
    requires s == "pc <- " + p0
    requires p0 == "0x234"
    ensures s == "pc <- 0x234"
  {
  }

  lemma Line1234()
    ensures Disassembly.Debug(Op(0x1234)) == "pc <- 0x234"
  {
    assert Decode(0x1234) == FlowGoto(Addr(0x234));
    assert Disasm(FlowGoto(Addr(0x234))) == "pc <- " + At(Addr(0x234));
    Text1234(Disasm(FlowGoto(Addr(0x234))), At(Addr(0x234)));
  }

  lemma Text2345(s: string, p0: string)
    requires s == "call " + p0
    requires p0 == "0x345"
    ensures s == "call 0x345"
  {
  }

  lemma Line2345()
    ensures Disassembly.Debug(Op(0x2345)) == "call 0x345"
  {
    assert Decode(0x2345) == FlowCall(Addr(0x345));
    assert Disasm(FlowCall(Addr(0x345))) == "call " + At(Addr(0x345));
    Text2345(Disasm(FlowCall(Addr(0x345))), At(Addr(0x345)));
  }

  lemma Text3456(s: string, p0: string, p1: string)
    requires s == "skip_if " + p0 + " == 0x" + p1
    requires p0 == "V4" && p1 == "56"
    ensures s == "skip_if V4 == 0x56"
  {
  }

  lemma Line3456()
    ensures Disassembly.Debug(Op(0x3456)) == "skip_if V4 == 0x56"
  {
    assert Decode(0x3456) == SkipIfVEqC(V(N4), 0x56);
    assert Disasm(SkipIfVEqC(V(N4), 0x56)) == "skip_if " + Reg(V(N4)) + " == 0x" + Byte(0x56);
    assert (0x56 as bv8) as int == 0x56;
    Text3456(Disasm(SkipIfVEqC(V(N4), 0x56)), Reg(V(N4)), Byte(0x56));
  }

  lemma Text4567(s: string, p0: string, p1: string)
    requires s == "skip_if " + p0 + " != 0x" + p1
    requires p0 == "V5" && p1 == "67"
    ensures s == "skip_if V5 != 0x67"
  {
  }

  lemma Line4567()
    ensures Disassembly.Debug(Op(0x4567)) == "skip_if V5 != 0x67"
  {
    assert Decode(0x4567) == SkipIfVNeC(V(N5), 0x67);
    assert Disasm(SkipIfVNeC(V(N5), 0x67)) == "skip_if " + Reg(V(N5)) + " != 0x" + Byte(0x67);
    assert (0x67 as bv8) as int == 0x67;
    Text4567(Disasm(SkipIfVNeC(V(N5), 0x67)), Reg(V(N5)), Byte(0x67));
  }

  lemma Text5670(s: string, p0: string, p1: string)
    requires s == "skip_if " + p0 + " == " + p1
    requires p0 == "V6" && p1 == "V7"
    ensures s == "skip_if V6 == V7"
  {
  }

  lemma Line5670()
    ensures Disassembly.Debug(Op(0x5670)) == "skip_if V6 == V7"
  {
    assert Decode(0x5670) == SkipIfVEqV(V(N6), V(N7));
    assert Disasm(SkipIfVEqV(V(N6), V(N7))) == "skip_if " + Reg(V(N6)) + " == " + Reg(V(N7));
    Text5670(Disasm(SkipIfVEqV(V(N6), V(N7))), Reg(V(N6)), Reg(V(N7)));
  }

  lemma Line5678()
    ensures Disassembly.Debug(Op(0x5678)) == "invalid ; 0x5678"
  {
    InvalidLine(0x5678, '5', '6', '7', '8');
  }

  lemma Text6123(s: string, p0: string, p1: string)
    requires s == p0 + " <- 0x" + p1
    requires p0 == "V1" && p1 == "23"
    ensures s == "V1 <- 0x23"
  {
  }

  lemma Line6123()
    ensures Disassembly.Debug(Op(0x6123)) == "V1 <- 0x23"
  {
    assert Decode(0x6123) == SetVC(V(N1), 0x23);
    assert Disasm(SetVC(V(N1), 0x23)) == Reg(V(N1)) + " <- 0x" + Byte(0x23);
    assert (0x23 as bv8) as int == 0x23;
    Text6123(Disasm(SetVC(V(N1), 0x23)), Reg(V(N1)), Byte(0x23));
  }

  lemma Text7234(s: string, p0: string, p1: string, p2: string)
    requires s == p0 + " <- " + p1 + " + 0x" + p2
    requires p0 == "V2" && p1 == "V2" && p2 == "34"
    ensures s == "V2 <- V2 + 0x34"
  {
  }

  lemma Line7234()
    ensures Disassembly.Debug(Op(0x7234)) == "V2 <- V2 + 0x34"
  {
    assert Decode(0x7234) == AddVC(V(N2), 0x34);
    assert Disasm(AddVC(V(N2), 0x34)) == Reg(V(N2)) + " <- " + Reg(V(N2)) + " + 0x" + Byte(0x34);
    assert (0x34 as bv8) as int == 0x34;
    Text7234(Disasm(AddVC(V(N2), 0x34)), Reg(V(N2)), Reg(V(N2)), Byte(0x34));
  }

  lemma Text8210(s: string, p0: string, p1: string)
    requires s == p0 + " <- " + p1
    requires p0 == "V2" && p1 == "V1"
    ensures s == "V2 <- V1"
  {
  }

  lemma Line8210()
    ensures Disassembly.Debug(Op(0x8210)) == "V2 <- V1"
  {
    assert Decode(0x8210) == SetVV(V(N2), V(N1));
    assert Disasm(SetVV(V(N2), V(N1))) == Reg(V(N2)) + " <- " + Reg(V(N1));
    Text8210(Disasm(SetVV(V(N2), V(N1))), Reg(V(N2)), Reg(V(N1)));
  }

  lemma Text8321(s: string, p0: string, p1: string, p2: string)
    requires s == p0 + " <- " + p1 + " | " + p2
    requires p0 == "V3" && p1 == "V3" && p2 == "V2"
    ensures s == "V3 <- V3 | V2"
  {
  }

  lemma Line8321()
    ensures Disassembly.Debug(Op(0x8321)) == "V3 <- V3 | V2"
  {
    assert Decode(0x8321) == BitorVV(V(N3), V(N2));
    assert Disasm(BitorVV(V(N3), V(N2))) == Reg(V(N3)) + " <- " + Reg(V(N3)) + " | " + Reg(V(N2));
    Text8321(Disasm(BitorVV(V(N3), V(N2))), Reg(V(N3)), Reg(V(N3)), Reg(V(N2)));
  }

  lemma Text8432(s: string, p0: string, p1: string, p2: string)
    requires s == p0 + " <- " + p1 + " & " + p2
    requires p0 == "V4" && p1 == "V4" && p2 == "V3"
    ensures s == "V4 <- V4 & V3"
  {
  }

  lemma Line8432()
    ensures Disassembly.Debug(Op(0x8432)) == "V4 <- V4 & V3"
  {
    assert Decode(0x8432) == BitandVV(V(N4), V(N3));
    assert Disasm(BitandVV(V(N4), V(N3))) == Reg(V(N4)) + " <- " + Reg(V(N4)) + " & " + Reg(V(N3));
    Text8432(Disasm(BitandVV(V(N4), V(N3))), Reg(V(N4)), Reg(V(N4)), Reg(V(N3)));
  }

  lemma Text8543(s: string, p0: string, p1: string, p2: string)
    requires s == p0 + " <- " + p1 + " ^ " + p2
    requires p0 == "V5" && p1 == "V5" && p2 == "V4"
    ensures s == "V5 <- V5 ^ V4"
  {
  }

  lemma Line8543()
    ensures Disassembly.Debug(Op(0x8543)) == "V5 <- V5 ^ V4"
  {
    assert Decode(0x8543) == BitxorVV(V(N5), V(N4));
    assert Disasm(BitxorVV(V(N5), V(N4))) == Reg(V(N5)) + " <- " + Reg(V(N5)) + " ^ " + Reg(V(N4));
    Text8543(Disasm(BitxorVV(V(N5), V(N4))), Reg(V(N5)), Reg(V(N5)), Reg(V(N4)));
  }

  lemma Text8654(s: string, p0: string, p1: string, p2: string)
    requires s == p0 + " <- " + p1 + " + " + p2
    requires p0 == "V6" && p1 == "V6" && p2 == "V5"
    ensures s == "V6 <- V6 + V5"
  {
  }

  lemma Line8654()
    ensures Disassembly.Debug(Op(0x8654)) == "V6 <- V6 + V5"
  {
    assert Decode(0x8654) == AddVV(V(N6), V(N5));
    assert Disasm(AddVV(V(N6), V(N5))) == Reg(V(N6)) + " <- " + Reg(V(N6)) + " + " + Reg(V(N5));
    Text8654(Disasm(AddVV(V(N6), V(N5))), Reg(V(N6)), Reg(V(N6)), Reg(V(N5)));
  }

  lemma Text8765(s: string, p0: string, p1: string, p2: string)
    requires s == p0 + " <- " + p1 + " - " + p2
    requires p0 == "V7" && p1 == "V7" && p2 == "V6"
    ensures s == "V7 <- V7 - V6"
  {
  }

  lemma Line8765()
    ensures Disassembly.Debug(Op(0x8765)) == "V7 <- V7 - V6"
  {
    assert Decode(0x8765) == SubVV(V(N7), V(N6));
    assert Disasm(SubVV(V(N7), V(N6))) == Reg(V(N7)) + " <- " + Reg(V(N7)) + " - " + Reg(V(N6));
    Text8765(Disasm(SubVV(V(N7), V(N6))), Reg(V(N7)), Reg(V(N7)), Reg(V(N6)));
  }

  lemma Text8876(s: string, p0: string, p1: string, p2: string)
    requires s == p0 + " <- " + p1 + " >> 1 ; " + p2
    requires p0 == "V8" && p1 == "V8" && p2 == "V7"
    ensures s == "V8 <- V8 >> 1 ; V7"
  {
  }

  lemma Line8876()
    ensures Disassembly.Debug(Op(0x8876)) == "V8 <- V8 >> 1 ; V7"
  {
    assert Decode(0x8876) == Shr1V(V(N8), V(N7));
    assert Disasm(Shr1V(V(N8), V(N7))) == Reg(V(N8)) + " <- " + Reg(V(N8)) + " >> 1 ; " + Reg(V(N7));
    Text8876(Disasm(Shr1V(V(N8), V(N7))), Reg(V(N8)), Reg(V(N8)), Reg(V(N7)));
  }

  lemma Text8987(s: string, p0: string, p1: string, p2: string)
    requires s == p0 + " <- " + p1 + " - " + p2
    requires p0 == "V9" && p1 == "V8" && p2 == "V9"
    ensures s == "V9 <- V8 - V9"
  {
  }

  lemma Line8987()
    ensures Disassembly.Debug(Op(0x8987)) == "V9 <- V8 - V9"
  {
    assert Decode(0x8987) == SubVVAlt(V(N9), V(N8));
    assert Disasm(SubVVAlt(V(N9), V(N8))) == Reg(V(N9)) + " <- " + Reg(V(N8)) + " - " + Reg(V(N9));
    Text8987(Disasm(SubVVAlt(V(N9), V(N8))), Reg(V(N9)), Reg(V(N8)), Reg(V(N9)));
  }

  lemma Line8678()
    ensures Disassembly.Debug(Op(0x8678)) == "invalid ; 0x8678"
  {
    InvalidLine(0x8678, '8', '6', '7', '8');
  }

  lemma Line8789()
    ensures Disassembly.Debug(Op(0x8789)) == "invalid ; 0x8789"
  {
    InvalidLine(0x8789, '8', '7', '8', '9');
  }

  lemma Line889A()
    ensures Disassembly.Debug(Op(0x889A)) == "invalid ; 0x889A"
  {
    InvalidLine(0x889A, '8', '8', '9', 'A');
  }

  lemma Line89AB()
    ensures Disassembly.Debug(Op(0x89AB)) == "invalid ; 0x89AB"
  {
    InvalidLine(0x89AB, '8', '9', 'A', 'B');
  }

  lemma Line8ABC()
    ensures Disassembly.Debug(Op(0x8ABC)) == "invalid ; 0x8ABC"
  {
    InvalidLine(0x8ABC, '8', 'A', 'B', 'C');
  }

  lemma Line8BCD()
    ensures Disassembly.Debug(Op(0x8BCD)) == "invalid ; 0x8BCD"
  {
    InvalidLine(0x8BCD, '8', 'B', 'C', 'D');
  }

  lemma Text8CDE(s: string, p0: string, p1: string, p2: string)
    requires s == p0 + " <- " + p1 + " << 1 ; " + p2
    requires p0 == "VC" && p1 == "VC" && p2 == "VD"
    ensures s == "VC <- VC << 1 ; VD"
  {
  }

  lemma Line8CDE()
    ensures Disassembly.Debug(Op(0x8CDE)) == "VC <- VC << 1 ; VD"
  {
    assert Decode(0x8CDE) == Shl1V(V(NC), V(ND));
    assert Disasm(Shl1V(V(NC), V(ND))) == Reg(V(NC)) + " <- " + Reg(V(NC)) + " << 1 ; " + Reg(V(ND));
    Text8CDE(Disasm(Shl1V(V(NC), V(ND))), Reg(V(NC)), Reg(V(NC)), Reg(V(ND)));
  }

  lemma Line8DEF()
    ensures Disassembly.Debug(Op(0x8DEF)) == "invalid ; 0x8DEF"
  {
    InvalidLine(0x8DEF, '8', 'D', 'E', 'F');
  }

  lemma Text9210(s: string, p0: string, p1: string)
    requires s == "skip_if " + p0 + " != " + p1
    requires p0 == "V2" && p1 == "V1"
    ensures s == "skip_if V2 != V1"
  {
  }

  lemma Line9210()
    ensures Disassembly.Debug(Op(0x9210)) == "skip_if V2 != V1"
  {
    assert Decode(0x9210) == SkipIfVNeV(V(N2), V(N1));
    assert Disasm(SkipIfVNeV(V(N2), V(N1))) == "skip_if " + Reg(V(N2)) + " != " + Reg(V(N1));
    Text9210(Disasm(SkipIfVNeV(V(N2), V(N1))), Reg(V(N2)), Reg(V(N1)));
  }

  lemma Line9001()
    ensures Disassembly.Debug(Op(0x9001)) == "invalid ; 0x9001"
  {
    InvalidLine(0x9001, '9', '0', '0', '1');
  }

  lemma TextA123(s: string, p0: string)
    requires s == "i <- " + p0
    requires p0 == "0x123"
    ensures s == "i <- 0x123"
  {
  }

  lemma LineA123()
    ensures Disassembly.Debug(Op(0xA123)) == "i <- 0x123"
  {
    assert Decode(0xA123) == SetIC(Addr(0x123));
    assert Disasm(SetIC(Addr(0x123))) == "i <- " + At(Addr(0x123));
    TextA123(Disasm(SetIC(Addr(0x123))), At(Addr(0x123)));
  }

  lemma TextB234(s: string, p0: string)
    requires s == "pc <- V0 + " + p0
    requires p0 == "0x234"
    ensures s == "pc <- V0 + 0x234"
  {
  }

  lemma LineB234()
    ensures Disassembly.Debug(Op(0xB234)) == "pc <- V0 + 0x234"
  {
    assert Decode(0xB234) == SetPcV0PlusC(Addr(0x234));
    assert Disasm(SetPcV0PlusC(Addr(0x234))) == "pc <- V0 + " + At(Addr(0x234));
    TextB234(Disasm(SetPcV0PlusC(Addr(0x234))), At(Addr(0x234)));
  }

  lemma TextC345(s: string, p0: string, p1: string)
    requires s == p0 + " <- rand() & 0x" + p1
    requires p0 == "V3" && p1 == "45"
    ensures s == "V3 <- rand() & 0x45"
  {
  }

  lemma LineC345()
    ensures Disassembly.Debug(Op(0xC345)) == "V3 <- rand() & 0x45"
  {
    assert Decode(0xC345) == SetVRandMask(V(N3), 0x45);
    assert Disasm(SetVRandMask(V(N3), 0x45)) == Reg(V(N3)) + " <- rand() & 0x" + Byte(0x45);
    assert (0x45 as bv8) as int == 0x45;
    TextC345(Disasm(SetVRandMask(V(N3), 0x45)), Reg(V(N3)), Byte(0x45));
  }

  lemma TextD45A(s: string, p0: string, p1: string, p2: string)
    requires s == "draw_sprite(x=" + p0 + ", y=" + p1 + ", h=" + p2 + ", sprite=i)"
    requires p0 == "V4" && p1 == "V5" && p2 == "10"
    ensures s == "draw_sprite(x=V4, y=V5, h=10, sprite=i)"
  {
  }

  lemma LineD45A()
    ensures Disassembly.Debug(Op(0xD45A)) == "draw_sprite(x=V4, y=V5, h=10, sprite=i)"
  {
    assert Decode(0xD45A) == DrawXYH(V(N4), V(N5), NA);
    assert Disasm(DrawXYH(V(N4), V(N5), NA)) == "draw_sprite(x=" + Reg(V(N4)) + ", y=" + Reg(V(N5)) + ", h=" + Nibbles.Display(NA) + ", sprite=i)";
    TextD45A(Disasm(DrawXYH(V(N4), V(N5), NA)), Reg(V(N4)), Reg(V(N5)), Nibbles.Display(NA));
  }

  lemma LineE123()
    ensures Disassembly.Debug(Op(0xE123)) == "invalid ; 0xE123"
  {
    InvalidLine(0xE123, 'E', '1', '2', '3');
  }

  lemma TextEF9E(s: string, p0: string)
    requires s == "skip_if key_pressed(" + p0 + ")"
    requires p0 == "VF"
    ensures s == "skip_if key_pressed(VF)"
  {
  }

  lemma LineEF9E()
    ensures Disassembly.Debug(Op(0xEF9E)) == "skip_if key_pressed(VF)"
  {
    assert Decode(0xEF9E) == SkipIfPressed(V(NF));
    assert Disasm(SkipIfPressed(V(NF))) == "skip_if key_pressed(" + Reg(V(NF)) + ")";
    TextEF9E(Disasm(SkipIfPressed(V(NF))), Reg(V(NF)));
  }

  lemma TextEEA1(s: string, p0: string)
    requires s == "skip_if !key_pressed(" + p0 + ")"
    requires p0 == "VE"
    ensures s == "skip_if !key_pressed(VE)"
  {
  }

  lemma LineEEA1()
    ensures Disassembly.Debug(Op(0xEEA1)) == "skip_if !key_pressed(VE)"
  {
    assert Decode(0xEEA1) == SkipUnlessPressed(V(NE));
    assert Disasm(SkipUnlessPressed(V(NE))) == "skip_if !key_pressed(" + Reg(V(NE)) + ")";
    TextEEA1(Disasm(SkipUnlessPressed(V(NE))), Reg(V(NE)));
  }

  lemma TextFA07(s: string, p0: string)
    requires s == p0 + " <- delay_timer"
    requires p0 == "VA"
    ensures s == "VA <- delay_timer"
  {
  }

  lemma LineFA07()
    ensures Disassembly.Debug(Op(0xFA07)) == "VA <- delay_timer"
  {
    assert Decode(0xFA07) == GetDelayTimer(V(NA));
    assert Disasm(GetDelayTimer(V(NA))) == Reg(V(NA)) + " <- delay_timer";
    TextFA07(Disasm(GetDelayTimer(V(NA))), Reg(V(NA)));
  }

  lemma TextFB0A(s: string, p0: string)
    requires s == p0 + " <- get_key()"
    requires p0 == "VB"
    ensures s == "VB <- get_key()"
  {
  }

  lemma LineFB0A()
    ensures Disassembly.Debug(Op(0xFB0A)) == "VB <- get_key()"
  {
    assert Decode(0xFB0A) == AwaitKey(V(NB));
    assert Disasm(AwaitKey(V(NB))) == Reg(V(NB)) + " <- get_key()";
    TextFB0A(Disasm(AwaitKey(V(NB))), Reg(V(NB)));
  }

  lemma LineF012()
    ensures Disassembly.Debug(Op(0xF012)) == "invalid ; 0xF012"
  {
    InvalidLine(0xF012, 'F', '0', '1', '2');
  }

  lemma TextFC15(s: string, p0: string)
    requires s == "delay_timer <- " + p0
    requires p0 == "VC"
    ensures s == "delay_timer <- VC"
  {
  }

  lemma LineFC15()
    ensures Disassembly.Debug(Op(0xFC15)) == "delay_timer <- VC"
  {
    assert Decode(0xFC15) == SetDelayTimer(V(NC));
    assert Disasm(SetDelayTimer(V(NC))) == "delay_timer <- " + Reg(V(NC));
    TextFC15(Disasm(SetDelayTimer(V(NC))), Reg(V(NC)));
  }

  lemma TextFD18(s: string, p0: string)
    requires s == "sound_timer <- " + p0
    requires p0 == "VD"
    ensures s == "sound_timer <- VD"
  {
  }

  lemma LineFD18()
    ensures Disassembly.Debug(Op(0xFD18)) == "sound_timer <- VD"
  {
    assert Decode(0xFD18) == SetSoundTimer(V(ND));
    assert Disasm(SetSoundTimer(V(ND))) == "sound_timer <- " + Reg(V(ND));
    TextFD18(Disasm(SetSoundTimer(V(ND))), Reg(V(ND)));
  }

  lemma TextFA1E(s: string, p0: string)
    requires s == "i <- i + " + p0
    requires p0 == "VA"
    ensures s == "i <- i + VA"
  {
  }

  lemma LineFA1E()
    ensures Disassembly.Debug(Op(0xFA1E)) == "i <- i + VA"
  {
    assert Decode(0xFA1E) == AddIV(V(NA));
    assert Disasm(AddIV(V(NA))) == "i <- i + " + Reg(V(NA));
    TextFA1E(Disasm(AddIV(V(NA))), Reg(V(NA)));
  }

  lemma TextFB29(s: string, p0: string)
    requires s == "i <- sprites[" + p0 + "]"
    requires p0 == "VB"
    ensures s == "i <- sprites[VB]"
  {
  }

  lemma LineFB29()
    ensures Disassembly.Debug(Op(0xFB29)) == "i <- sprites[VB]"
  {
    assert Decode(0xFB29) == SetISprite(V(NB));
    assert Disasm(SetISprite(V(NB))) == "i <- sprites[" + Reg(V(NB)) + "]";
    TextFB29(Disasm(SetISprite(V(NB))), Reg(V(NB)));
  }

  lemma TextFC33(s: string, p0: string)
    requires s == "i[0..3] <- bcd(" + p0 + ")"
    requires p0 == "VC"
    ensures s == "i[0..3] <- bcd(VC)"
  {
  }

  lemma LineFC33()
    ensures Disassembly.Debug(Op(0xFC33)) == "i[0..3] <- bcd(VC)"
  {
    assert Decode(0xFC33) == SetIBcd(V(NC));
    assert Disasm(SetIBcd(V(NC))) == "i[0..3] <- bcd(" + Reg(V(NC)) + ")";
    TextFC33(Disasm(SetIBcd(V(NC))), Reg(V(NC)));
  }

  lemma TextFD55(s: string, p0: string, p1: string)
    requires s == "i[0..=" + p0 + "] <- [V0..=" + p1 + "]"
    requires p0 == "13" && p1 == "VD"
    ensures s == "i[0..=13] <- [V0..=VD]"
  {
  }

  lemma LineFD55()
    ensures Disassembly.Debug(Op(0xFD55)) == "i[0..=13] <- [V0..=VD]"
  {
    assert Decode(0xFD55) == RegDump(V(ND));
    assert Disasm(RegDump(V(ND))) == "i[0..=" + Fmt.Dec(ToU8(V(ND).n)) + "] <- [V0..=" + Reg(V(ND)) + "]";
    TextFD55(Disasm(RegDump(V(ND))), Fmt.Dec(ToU8(V(ND).n)), Reg(V(ND)));
  }

  lemma TextFE65(s: string, p0: string, p1: string)
    requires s == "[V0..=" + p0 + "] <- i[0..=" + p1 + "]"
    requires p0 == "VE" && p1 == "14"
    ensures s == "[V0..=VE] <- i[0..=14]"
  {
  }

  lemma LineFE65()
    ensures Disassembly.Debug(Op(0xFE65)) == "[V0..=VE] <- i[0..=14]"
  {
    assert Decode(0xFE65) == RegLoad(V(NE));
    assert Disasm(RegLoad(V(NE))) == "[V0..=" + Reg(V(NE)) + "] <- i[0..=" + Fmt.Dec(ToU8(V(NE).n)) + "]";
    TextFE65(Disasm(RegLoad(V(NE))), Reg(V(NE)), Fmt.Dec(ToU8(V(NE).n)));
  }

}
