/**
 * `Op::decode`: the total dispatch from a 16-bit instruction word to one of
 * the 35 CHIP-8 operations or `invalid`, following the opcode table of the
 * CHIP-8 article on Wikipedia. The source passes the result to a visitor;
 * here it is returned as an `Instruction` value that the executor and the
 * disassembler each consume.
 */
module Decoding {
  import opened Prelude
  import opened Nibbles
  import opened RegisterIndex
  import opened Addresses

  /** One constructor per method of the `Decode` visitor trait. */
  datatype Instruction =
    | Invalid(op: U16)                  // any pattern not listed below
    | CallMcs(addr: Addr)               // 0NNN
    | DisplayClear                      // 00E0
    | FlowReturn                        // 00EE
    | FlowGoto(addr: Addr)              // 1NNN
    | FlowCall(addr: Addr)              // 2NNN
    | SkipIfVEqC(vx: V, c: bv8)         // 3XNN
    | SkipIfVNeC(vx: V, c: bv8)         // 4XNN
    | SkipIfVEqV(vx: V, vy: V)          // 5XY0
    | SetVC(vx: V, c: bv8)              // 6XNN
    | AddVC(vx: V, c: bv8)              // 7XNN
    | SetVV(vx: V, vy: V)               // 8XY0
    | BitorVV(vx: V, vy: V)             // 8XY1
    | BitandVV(vx: V, vy: V)            // 8XY2
    | BitxorVV(vx: V, vy: V)            // 8XY3
    | AddVV(vx: V, vy: V)               // 8XY4
    | SubVV(vx: V, vy: V)               // 8XY5
    | Shr1V(vx: V, vy: V)               // 8XY6 (Y is passed along but unused by the executor)
    | SubVVAlt(vx: V, vy: V)            // 8XY7
    | Shl1V(vx: V, vy: V)               // 8XYE (Y is passed along but unused by the executor)
    | SkipIfVNeV(vx: V, vy: V)          // 9XY0
    | SetIC(addr: Addr)                 // ANNN
    | SetPcV0PlusC(addr: Addr)          // BNNN
    | SetVRandMask(vx: V, c: bv8)       // CXNN
    | DrawXYH(vx: V, vy: V, h: Nibble)  // DXYN
    | SkipIfPressed(vx: V)              // EX9E
    | SkipUnlessPressed(vx: V)          // EXA1
    | GetDelayTimer(vx: V)              // FX07
    | AwaitKey(vx: V)                   // FX0A
    | SetDelayTimer(vx: V)              // FX15
    | SetSoundTimer(vx: V)              // FX18
    | AddIV(vx: V)                      // FX1E
    | SetISprite(vx: V)                 // FX29
    | SetIBcd(vx: V)                    // FX33
    | RegDump(vx: V)                    // FX55
    | RegLoad(vx: V)                    // FX65

  /**
   * `Op::decode`. The source matches on the nibbles `n(op>>12)` and `n(op>>0)`;
   * the model matches on their values, which is the same dispatch.
   */
  function Decode(op: U16): Instruction {
    var x := V(Truncate16(op / 0x100));
    var y := V(Truncate16(op / 0x10));
    var n := op % 0x10;
    var nn := LowByte(op);
    var nnn := Addr(op % 0x1000);
    match op / 0x1000
    case 0x0 => (if op == 0x00E0 then DisplayClear else if op == 0x00EE then FlowReturn else CallMcs(Addr(op)))
    case 0x1 => FlowGoto(nnn)
    case 0x2 => FlowCall(nnn)
    case 0x3 => SkipIfVEqC(x, nn)
    case 0x4 => SkipIfVNeC(x, nn)
    case 0x5 => if n == 0 then SkipIfVEqV(x, y) else Invalid(op)
    case 0x6 => SetVC(x, nn)
    case 0x7 => AddVC(x, nn)
    case 0x8 => DecodeArith(op, x, y)
    case 0x9 => if n == 0 then SkipIfVNeV(x, y) else Invalid(op)
    case 0xA => SetIC(nnn)
    case 0xB => SetPcV0PlusC(nnn)
    case 0xC => SetVRandMask(x, nn)
    case 0xD => DrawXYH(x, y, Truncate16(op))
    case 0xE => (
      if op % 0x100 == 0x9E then SkipIfPressed(x)
      else if op % 0x100 == 0xA1 then SkipUnlessPressed(x)
      else Invalid(op))
    case _ => DecodeMisc(op, x)  // 0xF, the only top digit left
  }

  /** The `8XYN` group, selected by the low digit. */
  function DecodeArith(op: U16, x: V, y: V): Instruction {
    match op % 0x10
    case 0x0 => SetVV(x, y)
    case 0x1 => BitorVV(x, y)
    case 0x2 => BitandVV(x, y)
    case 0x3 => BitxorVV(x, y)
    case 0x4 => AddVV(x, y)
    case 0x5 => SubVV(x, y)
    case 0x6 => Shr1V(x, y)
    case 0x7 => SubVVAlt(x, y)
    case 0xE => Shl1V(x, y)
    case _ => Invalid(op)  // 8 ..= D, F
  }

  /** The `FXNN` group, selected by the low byte. */
  function DecodeMisc(op: U16, x: V): Instruction {
    match op % 0x100
    case 0x07 => GetDelayTimer(x)
    case 0x0A => AwaitKey(x)
    case 0x15 => SetDelayTimer(x)
    case 0x18 => SetSoundTimer(x)
    case 0x1E => AddIV(x)
    case 0x29 => SetISprite(x)
    case 0x33 => SetIBcd(x)
    case 0x55 => RegDump(x)
    case 0x65 => RegLoad(x)
    case _ => Invalid(op)
  }

  /** The low byte of a word, `op as u8`. */
  function LowByte(op: U16): bv8 {
    (op % 0x100) as bv8
  }

  /**
   * The words the opcode table defines, stated on the word's digits
   * independently of `Decode`: every other word decodes to `invalid`.
   */
  predicate IsDefined(op: U16) {
    var top, n, lo := op / 0x1000, op % 0x10, op % 0x100;
    || top in {0x0, 0x1, 0x2, 0x3, 0x4, 0x6, 0x7, 0xA, 0xB, 0xC, 0xD}
    || (top == 0x5 && n == 0)
    || (top == 0x8 && (n <= 7 || n == 0xE))
    || (top == 0x9 && n == 0)
    || (top == 0xE && lo in {0x9E, 0xA1})
    || (top == 0xF && lo in {0x07, 0x0A, 0x15, 0x18, 0x1E, 0x29, 0x33, 0x55, 0x65})
  }

  function XField(v: V): nat { ToU8(v.n) * 0x100 }
  function YField(v: V): nat { ToU8(v.n) * 0x10 }

  /** The inverse of `Decode`: assembles an instruction back into its word. */
  function Encode(i: Instruction): U16 {
    match i
    case Invalid(op) => op
    case CallMcs(a) => a.value % 0x1000
    case DisplayClear => 0x00E0
    case FlowReturn => 0x00EE
    case FlowGoto(a) => 0x1000 + a.value % 0x1000
    case FlowCall(a) => 0x2000 + a.value % 0x1000
    case SkipIfVEqC(vx, c) => 0x3000 + XField(vx) + c as int
    case SkipIfVNeC(vx, c) => 0x4000 + XField(vx) + c as int
    case SkipIfVEqV(vx, vy) => 0x5000 + XField(vx) + YField(vy)
    case SetVC(vx, c) => 0x6000 + XField(vx) + c as int
    case AddVC(vx, c) => 0x7000 + XField(vx) + c as int
    case SetVV(vx, vy) => 0x8000 + XField(vx) + YField(vy) + 0x0
    case BitorVV(vx, vy) => 0x8000 + XField(vx) + YField(vy) + 0x1
    case BitandVV(vx, vy) => 0x8000 + XField(vx) + YField(vy) + 0x2
    case BitxorVV(vx, vy) => 0x8000 + XField(vx) + YField(vy) + 0x3
    case AddVV(vx, vy) => 0x8000 + XField(vx) + YField(vy) + 0x4
    case SubVV(vx, vy) => 0x8000 + XField(vx) + YField(vy) + 0x5
    case Shr1V(vx, vy) => 0x8000 + XField(vx) + YField(vy) + 0x6
    case SubVVAlt(vx, vy) => 0x8000 + XField(vx) + YField(vy) + 0x7
    case Shl1V(vx, vy) => 0x8000 + XField(vx) + YField(vy) + 0xE
    case SkipIfVNeV(vx, vy) => 0x9000 + XField(vx) + YField(vy)
    case SetIC(a) => 0xA000 + a.value % 0x1000
    case SetPcV0PlusC(a) => 0xB000 + a.value % 0x1000
    case SetVRandMask(vx, c) => 0xC000 + XField(vx) + c as int
    case DrawXYH(vx, vy, h) => 0xD000 + XField(vx) + YField(vy) + ToU8(h)
    case SkipIfPressed(vx) => 0xE09E + XField(vx)
    case SkipUnlessPressed(vx) => 0xE0A1 + XField(vx)
    case GetDelayTimer(vx) => 0xF007 + XField(vx)
    case AwaitKey(vx) => 0xF00A + XField(vx)
    case SetDelayTimer(vx) => 0xF015 + XField(vx)
    case SetSoundTimer(vx) => 0xF018 + XField(vx)
    case AddIV(vx) => 0xF01E + XField(vx)
    case SetISprite(vx) => 0xF029 + XField(vx)
    case SetIBcd(vx) => 0xF033 + XField(vx)
    case RegDump(vx) => 0xF055 + XField(vx)
    case RegLoad(vx) => 0xF065 + XField(vx)
  }

  /** The instructions `Decode` can produce: 12-bit addresses, and `invalid` only for undefined words. */
  predicate WellFormed(i: Instruction) {
    match i
    case Invalid(op) => !IsDefined(op)
    case CallMcs(a) => a.value < 0x1000 && a.value != 0x00E0 && a.value != 0x00EE
    case FlowGoto(a) => a.value < 0x1000
    case FlowCall(a) => a.value < 0x1000
    case SetIC(a) => a.value < 0x1000
    case SetPcV0PlusC(a) => a.value < 0x1000
    case _ => true
  }

  /**
   * What a visitor sees that keeps the trait's default `display_clear` and
   * `flow_return`: both fall back to `call_mcs` with the word's own address.
   */
  function WithTraitDefaults(i: Instruction): Instruction {
    match i
    case DisplayClear => CallMcs(Addr(0x00E0))
    case FlowReturn => CallMcs(Addr(0x00EE))
    case _ => i
  }

  /** For the digit widths of a word, `a == q * d + r` with `0 <= r < d` fixes quotient and remainder. */
  lemma DivMod(a: int, d: int, q: int, r: int)
    requires d == 0x10 || d == 0x100 || d == 0x1000
    requires a == q * d + r && 0 <= r < d
    ensures a / d == q && a % d == r
  {
    if d == 0x10 {
    } else if d == 0x100 {
    } else {
    }
  }

  /** The digits of a word. */
  lemma Digits(op: U16)
    ensures op == (op / 0x1000) * 0x1000 + ((op / 0x100) % 0x10) * 0x100 + ((op / 0x10) % 0x10) * 0x10 + op % 0x10
    ensures op % 0x1000 == ((op / 0x100) % 0x10) * 0x100 + op % 0x100
    ensures op % 0x100 == ((op / 0x10) % 0x10) * 0x10 + op % 0x10
    ensures op / 0x1000 < 0x10
  {
    var d0, a := op % 0x10, op / 0x10;
    var d1, b := a % 0x10, a / 0x10;
    var d2, c := b % 0x10, b / 0x10;
    DivMod(op, 0x100, b, d1 * 0x10 + d0);
    DivMod(op, 0x1000, c, d2 * 0x100 + d1 * 0x10 + d0);
  }

  /** Every word decodes to a well-formed instruction, and `invalid` exactly for undefined words. */
  lemma {:induction false} DecodeWellFormed(op: U16)
    ensures WellFormed(Decode(op))
    ensures Decode(op).Invalid? <==> !IsDefined(op)
    ensures Decode(op).Invalid? ==> Decode(op).op == op
  {
    Digits(op);
  }

  /** Decoding loses nothing: re-encoding the result gives back the word. */
  lemma {:induction false} EncodeDecode(op: U16)
    ensures Encode(Decode(op)) == op
  {
    var t := op / 0x1000;
    if t == 0x0 || t == 0x1 || t == 0x2 || t == 0xA || t == 0xB {
      EncodeDecodeAddress(op);
    } else if t == 0x3 || t == 0x4 || t == 0x6 || t == 0x7 || t == 0xC {
      EncodeDecodeRegConst(op);
    } else if t == 0x5 || t == 0x8 || t == 0x9 || t == 0xD {
      EncodeDecodeRegReg(op);
    } else {
      EncodeDecodeReg(op);
    }
  }

  lemma EncodeDecodeAddress(op: U16)
    requires op / 0x1000 in {0x0, 0x1, 0x2, 0xA, 0xB}
    ensures Encode(Decode(op)) == op
  {
    Digits(op);
  }

  lemma EncodeDecodeRegReg(op: U16)
    requires op / 0x1000 in {0x5, 0x8, 0x9, 0xD}
    ensures Encode(Decode(op)) == op
  {
    Digits(op);
    assert XField(V(Truncate16(op / 0x100))) == ((op / 0x100) % 0x10) * 0x100;
    assert YField(V(Truncate16(op / 0x10))) == ((op / 0x10) % 0x10) * 0x10;
  }

  /** A byte read out of a word converts to `bv8` and back unchanged. */
  lemma ByteRoundTrip(k: nat)
    requires k < 0x100
    ensures (k as bv8) as int == k
  {
    assert k % 0x100 == k;
  }

  lemma EncodeDecodeRegConst(op: U16)
    requires op / 0x1000 in {0x3, 0x4, 0x6, 0x7, 0xC}
    ensures Encode(Decode(op)) == op
  {
    var t, x, lo := op / 0x1000, (op / 0x100) % 0x10, op % 0x100;
    Digits(op);
    assert op == t * 0x1000 + x * 0x100 + lo;
    ByteRoundTrip(lo);
    assert XField(V(Truncate16(op / 0x100))) == x * 0x100;
  }

  lemma EncodeDecodeReg(op: U16)
    requires op / 0x1000 in {0xE, 0xF}
    ensures Encode(Decode(op)) == op
  {
    var t, x, lo := op / 0x1000, (op / 0x100) % 0x10, op % 0x100;
    Digits(op);
    assert op == t * 0x1000 + x * 0x100 + lo;
    var v := V(Truncate16(op / 0x100));
    assert XField(v) == x * 0x100;
    if t == 0xE {
      assert Decode(op) == (if lo == 0x9E then SkipIfPressed(v) else if lo == 0xA1 then SkipUnlessPressed(v) else Invalid(op));
    } else {
      EncodeDecodeF(op, v, x, lo);
    }
  }

  lemma EncodeDecodeF(op: U16, v: V, x: int, lo: int)
    requires op / 0x1000 == 0xF && x == (op / 0x100) % 0x10 && lo == op % 0x100
    requires op == 0xF000 + x * 0x100 + lo && v == V(Truncate16(op / 0x100)) && XField(v) == x * 0x100
    ensures Encode(Decode(op)) == op
  {
    if lo !in {0x07, 0x0A, 0x15, 0x18, 0x1E, 0x29, 0x33, 0x55, 0x65} {
      assert Decode(op) == Invalid(op);
    }
  }

  /** Every well-formed instruction is what its own encoding decodes to. */
  lemma {:induction false} DecodeEncode(i: Instruction)
    requires WellFormed(i)
    ensures Decode(Encode(i)) == i
  {
    if i.Invalid? {
      DecodeWellFormed(i.op);
    } else if i.CallMcs? {
      ZeroGroup(i.addr.value);
    } else if i.SkipIfVEqC? || i.SkipIfVNeC? || i.SetVC? || i.AddVC? || i.SetVRandMask? {
      DecodeEncodeConst(i);
    } else if i.SkipIfVEqV? || i.SetVV? || i.BitorVV? || i.BitandVV? || i.BitxorVV? || i.AddVV?
      || i.SubVV? || i.Shr1V? || i.SubVVAlt? || i.Shl1V? || i.SkipIfVNeV? || i.DrawXYH? {
      DecodeEncodePair(i);
    } else if i.SkipIfPressed? || i.SkipUnlessPressed? || i.GetDelayTimer? || i.AwaitKey? || i.SetDelayTimer?
      || i.SetSoundTimer? || i.AddIV? || i.SetISprite? || i.SetIBcd? || i.RegDump? || i.RegLoad? {
      DecodeEncodeOne(i);
    }
  }

  lemma DecodeEncodeConst(i: Instruction)
    requires i.SkipIfVEqC? || i.SkipIfVNeC? || i.SetVC? || i.AddVC? || i.SetVRandMask?
    ensures Decode(Encode(i)) == i
  {
    match i
    case SkipIfVEqC(vx, c) => ConstWord(Encode(i), 0x3, vx, c);
    case SkipIfVNeC(vx, c) => ConstWord(Encode(i), 0x4, vx, c);
    case SetVC(vx, c) => ConstWord(Encode(i), 0x6, vx, c);
    case AddVC(vx, c) => ConstWord(Encode(i), 0x7, vx, c);
    case SetVRandMask(vx, c) => ConstWord(Encode(i), 0xC, vx, c);
  }

  lemma DecodeEncodePair(i: Instruction)
    requires i.SkipIfVEqV? || i.SetVV? || i.BitorVV? || i.BitandVV? || i.BitxorVV? || i.AddVV?
      || i.SubVV? || i.Shr1V? || i.SubVVAlt? || i.Shl1V? || i.SkipIfVNeV? || i.DrawXYH?
    ensures Decode(Encode(i)) == i
  {
    match i
    case SkipIfVEqV(vx, vy) => PairWord(Encode(i), 0x5, vx, vy, 0x0);
    case SkipIfVNeV(vx, vy) => PairWord(Encode(i), 0x9, vx, vy, 0x0);
    case DrawXYH(vx, vy, h) => PairWord(Encode(i), 0xD, vx, vy, ToU8(h)); NibbleOf(Encode(i), h);
    case _ => DecodeEncodeArith(i);
  }

  lemma DecodeEncodeArith(i: Instruction)
    requires i.SetVV? || i.BitorVV? || i.BitandVV? || i.BitxorVV? || i.AddVV?
      || i.SubVV? || i.Shr1V? || i.SubVVAlt? || i.Shl1V?
    ensures Decode(Encode(i)) == i
  {
    match i
    case SetVV(vx, vy) => PairWord(Encode(i), 0x8, vx, vy, 0x0);
    case BitorVV(vx, vy) => PairWord(Encode(i), 0x8, vx, vy, 0x1);
    case BitandVV(vx, vy) => PairWord(Encode(i), 0x8, vx, vy, 0x2);
    case BitxorVV(vx, vy) => PairWord(Encode(i), 0x8, vx, vy, 0x3);
    case _ => DecodeEncodeCarry(i);
  }

  lemma DecodeEncodeCarry(i: Instruction)
    requires i.AddVV? || i.SubVV? || i.Shr1V? || i.SubVVAlt? || i.Shl1V?
    ensures Decode(Encode(i)) == i
  {
    match i
    case AddVV(vx, vy) => PairWord(Encode(i), 0x8, vx, vy, 0x4);
    case SubVV(vx, vy) => PairWord(Encode(i), 0x8, vx, vy, 0x5);
    case Shr1V(vx, vy) => PairWord(Encode(i), 0x8, vx, vy, 0x6);
    case SubVVAlt(vx, vy) => PairWord(Encode(i), 0x8, vx, vy, 0x7);
    case Shl1V(vx, vy) => PairWord(Encode(i), 0x8, vx, vy, 0xE);
  }

  lemma DecodeEncodeOne(i: Instruction)
    requires i.SkipIfPressed? || i.SkipUnlessPressed? || i.GetDelayTimer? || i.AwaitKey? || i.SetDelayTimer?
      || i.SetSoundTimer? || i.AddIV? || i.SetISprite? || i.SetIBcd? || i.RegDump? || i.RegLoad?
    ensures Decode(Encode(i)) == i
  {
    match i
    case SkipIfPressed(vx) => OneWord(Encode(i), 0xE, vx, 0x9E);
    case SkipUnlessPressed(vx) => OneWord(Encode(i), 0xE, vx, 0xA1);
    case _ => DecodeEncodeMisc(i);
  }

  lemma DecodeEncodeMisc(i: Instruction)
    requires i.GetDelayTimer? || i.AwaitKey? || i.SetDelayTimer? || i.SetSoundTimer? || i.AddIV?
      || i.SetISprite? || i.SetIBcd? || i.RegDump? || i.RegLoad?
    ensures Decode(Encode(i)) == i
  {
    match i
    case GetDelayTimer(vx) => MiscWord(Encode(i), vx, 0x07);
    case AwaitKey(vx) => MiscWord(Encode(i), vx, 0x0A);
    case SetDelayTimer(vx) => MiscWord(Encode(i), vx, 0x15);
    case SetSoundTimer(vx) => MiscWord(Encode(i), vx, 0x18);
    case _ => DecodeEncodeMemory(i);
  }

  lemma DecodeEncodeMemory(i: Instruction)
    requires i.AddIV? || i.SetISprite? || i.SetIBcd? || i.RegDump? || i.RegLoad?
    ensures Decode(Encode(i)) == i
  {
    match i
    case AddIV(vx) => MiscWord(Encode(i), vx, 0x1E);
    case SetISprite(vx) => MiscWord(Encode(i), vx, 0x29);
    case SetIBcd(vx) => MiscWord(Encode(i), vx, 0x33);
    case RegDump(vx) => MiscWord(Encode(i), vx, 0x55);
    case RegLoad(vx) => MiscWord(Encode(i), vx, 0x65);
  }

  /** A word `F X NN` decodes within the `F` group. */
  lemma MiscWord(op: U16, vx: V, lo: nat)
    requires lo < 0x100 && op == 0xF000 + XField(vx) + lo
    ensures op % 0x100 == lo && Decode(op) == DecodeMisc(op, vx)
  {
    OneWord(op, 0xF, vx, lo);
  }

  /** A nibble placed in the low digits of a word is recovered by `truncate16`. */
  lemma NibbleOf(k: U16, n: Nibble)
    requires k % 0x10 == ToU8(n)
    ensures Truncate16(k) == n
  {
    RoundTrip(n);
    assert (k % 0x100) % 16 == ToU8(n) % 16;
  }

  /** The fields of a word `T X NN`. */
  lemma ConstWord(op: U16, t: nat, vx: V, c: bv8)
    requires t < 0x10 && op == t * 0x1000 + XField(vx) + c as int
    ensures op / 0x1000 == t && V(Truncate16(op / 0x100)) == vx && LowByte(op) == c
  {
    var x, lo := ToU8(vx.n), c as int;
    DivMod(op, 0x100, t * 0x10 + x, lo);
    DivMod(op, 0x1000, t, x * 0x100 + lo);
    DivMod(op / 0x100, 0x10, t, x);
    NibbleOf(op / 0x100, vx.n);
    ByteBack(c);
    assert LowByte(op) == (c as int) as bv8;
  }

  /** A byte widened to an integer narrows back to itself. */
  lemma ByteBack(c: bv8)
    ensures (c as int) as bv8 == c
  {
  }

  /** The fields of a word `T X Y N`. */
  lemma PairWord(op: U16, t: nat, vx: V, vy: V, n: nat)
    requires t < 0x10 && n < 0x10 && op == t * 0x1000 + XField(vx) + YField(vy) + n
    ensures op / 0x1000 == t && op % 0x10 == n
    ensures V(Truncate16(op / 0x100)) == vx && V(Truncate16(op / 0x10)) == vy
  {
    var x, y := ToU8(vx.n), ToU8(vy.n);
    DivMod(op, 0x10, t * 0x100 + x * 0x10 + y, n);
    DivMod(op, 0x100, t * 0x10 + x, y * 0x10 + n);
    DivMod(op, 0x1000, t, x * 0x100 + y * 0x10 + n);
    DivMod(op / 0x100, 0x10, t, x);
    DivMod(op / 0x10, 0x10, t * 0x10 + x, y);
    NibbleOf(op / 0x100, vx.n);
    NibbleOf(op / 0x10, vy.n);
  }

  /** The fields of a word `T X NN` whose low byte selects the operation. */
  lemma OneWord(op: U16, t: nat, vx: V, lo: nat)
    requires t < 0x10 && lo < 0x100 && op == t * 0x1000 + XField(vx) + lo
    ensures op / 0x1000 == t && op % 0x100 == lo && V(Truncate16(op / 0x100)) == vx
  {
    var x := ToU8(vx.n);
    DivMod(op, 0x100, t * 0x10 + x, lo);
    DivMod(op, 0x1000, t, x * 0x100 + lo);
    DivMod(op / 0x100, 0x10, t, x);
    NibbleOf(op / 0x100, vx.n);
  }

  /** The 0NNN group: two reserved words, and `call_mcs` with the whole word for the rest. */
  lemma ZeroGroup(op: U16)
    requires op < 0x1000
    ensures op == 0x00E0 ==> Decode(op) == DisplayClear
    ensures op == 0x00EE ==> Decode(op) == FlowReturn
    ensures op != 0x00E0 && op != 0x00EE ==> Decode(op) == CallMcs(Addr(op))
    ensures WithTraitDefaults(Decode(op)) == CallMcs(Addr(op))
  {
  }
}
