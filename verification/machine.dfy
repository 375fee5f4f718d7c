/**
 * What one instruction does to the registers and memory of a context, as a
 * function from the machine before to the outcome: the machine after
 * (`try_step_single` returned true), a refusal (it returned false and
 * changed nothing) or a panic.
 */
module Machines {
  import opened Prelude
  import opened Nibbles
  import opened RegisterIndex
  import opened Addresses
  import opened Decoding
  import opened RegisterFile
  import opened Memories
  import Screens

  datatype Machine = Machine(regs: Registers, mem: Bytes4K)

  /** Why a step panics; what the machine holds afterwards is not modelled. */
  datatype Abort =
    | InvalidInstruction(op: U16)  // `invalid`
    | McsCall(at: Addr)            // `call_mcs`
    | ReturnWithoutStack           // `flow_return` on an empty stack
    | RandNotImplemented           // `set_v_rand_mask` is `todo!()`
    | SpriteOutOfMemory            // the sprite slice runs past 4 KiB
    | Overflow                     // a `u16` addition overflowed (debug build)

  datatype Outcome = Ran(next: Machine) | Refused | Panicked(why: Abort)

  function Reg(m: Machine, x: V): bv8 { Get(m.regs, x) }

  function WithReg(m: Machine, x: V, b: bv8): Machine { m.(regs := Set(m.regs, x, b)) }

  function WithPc(m: Machine, pc: Addr): Machine { m.(regs := m.regs.(pc := pc)) }

  function WithI(m: Machine, i: Addr): Machine { m.(regs := m.regs.(i := i)) }

  /** `advance`: `pc += n`, which panics past 0xFFFF. */
  function Advance(m: Machine, n: nat): Outcome {
    if m.regs.pc.value + n <= 0xFFFF then Ran(WithPc(m, Addr(m.regs.pc.value + n))) else Panicked(Overflow)
  }

  /** `advance` moves PC by `n` and changes nothing else; it panics exactly when PC + n passes 0xFFFF. */
  lemma AdvanceMovesPc(m: Machine, n: nat)
    ensures Advance(m, n).Ran? <==> m.regs.pc.value + n <= 0xFFFF
    ensures Advance(m, n).Panicked? ==> Advance(m, n).why == Overflow
    ensures Advance(m, n).Ran? ==>
      Advance(m, n).next.regs.pc.value == m.regs.pc.value + n
      && Advance(m, n).next == m.(regs := m.regs.(pc := Advance(m, n).next.regs.pc))
  {
  }

  /** `step`: on to the next instruction. */
  function Step(m: Machine): Outcome { Advance(m, 2) }

  /** `step_cond`: skip the next instruction when `skip`. */
  function StepCond(m: Machine, skip: bool): Outcome { Advance(m, if skip then 4 else 2) }

  /** `bcd`: hundreds, tens and units of a byte. */
  function Bcd(b: bv8): (r: seq<bv8>)
    ensures |r| == 3
  {
    [b / 100, b / 10 % 10, b % 10]
  }

  /** Memory with the screen's 256 bytes replaced. */
  function WithScreen(mem: Bytes4K, s: Screens.Pixels): (r: Bytes4K)
    ensures ScreenOf(r) == s && r[..0xF00] == mem[..0xF00]
  {
    mem[..0xF00] + s
  }

  /** The register `V(k)`. */
  function Nth(k: nat): V
    requires k < 16
  {
    V(Truncate8(k))
  }

  /** `reg_dump`'s loop after `k` iterations: V0 ..< Vk written at I, I + 1, ... (each address masked). */
  function Dump(mem: Bytes4K, i: nat, r: Registers, k: nat): Bytes4K
    requires k <= 16 && i + k <= 0x1_0000
  {
    if k == 0 then mem else Poke(Dump(mem, i, r, k - 1), Addr(i + k - 1), Get(r, Nth(k - 1)))
  }

  /** `reg_load`'s loop after `k` iterations: V0 ..< Vk read from I, I + 1, ... */
  function Load(r: Registers, mem: Bytes4K, i: nat, k: nat): Registers
    requires k <= 16 && i + k <= 0x1_0000
  {
    if k == 0 then r else Set(Load(r, mem, i, k - 1), Nth(k - 1), Peek(mem, Addr(i + k - 1)))
  }

  /** 0NNN, 00E0, 00EE, 1NNN, 2NNN, BNNN and CXNN: the instructions that do not simply step on. */
  function Control(m: Machine, ins: Instruction): Outcome {
    var pc := m.regs.pc.value;
    match ins
    case Invalid(op) => Panicked(InvalidInstruction(op))
    case CallMcs(a) => Panicked(McsCall(a))
    case DisplayClear => Step(m.(mem := WithScreen(m.mem, Screens.Blank())))
    case FlowReturn =>
      var s := m.regs.stack;
      if |s| == 0 then Panicked(ReturnWithoutStack)
      else Ran(m.(regs := m.regs.(pc := s[|s| - 1], stack := s[..|s| - 1])))
    case FlowGoto(a) => Ran(WithPc(m, a))
    case FlowCall(a) =>
      if pc + 2 > 0xFFFF then Panicked(Overflow)
      else Ran(m.(regs := m.regs.(pc := a, stack := m.regs.stack + [Addr(pc + 2)])))
    case SetPcV0PlusC(a) =>
      if Widen(Reg(m, V0)) + a.value > 0xFFFF then Panicked(Overflow)
      else Ran(WithPc(m, Addr((Widen(Reg(m, V0)) + a.value) % 0x1000)))
    case _ => Panicked(RandNotImplemented)  // CXNN
  }

  /** Whether a skip instruction (3XNN, 4XNN, 5XY0, 9XY0, EX9E, EXA1) skips. */
  predicate SkipTaken(m: Machine, ins: Instruction) {
    match ins
    case SkipIfVEqC(x, c) => Reg(m, x) == c
    case SkipIfVNeC(x, c) => Reg(m, x) != c
    case SkipIfVEqV(x, y) => Reg(m, x) == Reg(m, y)
    case SkipIfVNeV(x, y) => Reg(m, x) != Reg(m, y)
    case SkipIfPressed(_) => true
    case _ => false
  }

  /** A byte widened to `u16` or `usize` (`as u16`, `as usize`). */
  function Widen(b: bv8): (r: nat)
    ensures r < 0x100
  {
    b as int
  }

  /** `u8::wrapping_add`. */
  function WrappingAdd(a: bv8, b: bv8): bv8 { a + b }

  /** `u8::wrapping_sub`. */
  function WrappingSub(a: bv8, b: bv8): bv8 { a - b }

  /** 0NNN, 00E0, 00EE, 1NNN, 2NNN, ANNN, BNNN and CXNN: jumps, calls, the screen, I and the unimplemented. */
  predicate IsControlOp(ins: Instruction) {
    ins.Invalid? || ins.CallMcs? || ins.DisplayClear? || ins.FlowReturn? || ins.FlowGoto?
    || ins.FlowCall? || ins.SetPcV0PlusC? || ins.SetVRandMask? || ins.SetIC?
  }

  /** 3XNN, 4XNN, 5XY0, 9XY0, EX9E and EXA1: the conditional skips. */
  predicate IsSkip(ins: Instruction) {
    ins.SkipIfVEqC? || ins.SkipIfVNeC? || ins.SkipIfVEqV? || ins.SkipIfVNeV?
    || ins.SkipIfPressed? || ins.SkipUnlessPressed?
  }

  /** The skips and the 6XNN ..= 8XYE register arithmetic. */
  predicate IsRegisterOp(ins: Instruction) {
    IsSkip(ins) || IsByteOp(ins) || ins.Shr1V? || ins.Shl1V?
  }

  /** 6XNN, 7XNN, 8XY0 ..= 8XY5 and 8XY7: the instructions that store a byte in Vx and step. */
  predicate IsByteOp(ins: Instruction) {
    ins.SetVC? || ins.AddVC? || ins.SetVV? || ins.BitorVV? || ins.BitandVV?
    || ins.BitxorVV? || ins.AddVV? || ins.SubVV? || ins.SubVVAlt?
  }

  /** The right-hand operand of a byte instruction: the byte NN, or Vy. */
  function Operand(m: Machine, ins: Instruction): bv8
    requires IsByteOp(ins)
  {
    if ins.SetVC? || ins.AddVC? then ins.c else Reg(m, ins.vy)
  }

  /** The byte a byte instruction stores in Vx; the arithmetic wraps. */
  function ByteResult(m: Machine, ins: Instruction): bv8
    requires IsByteOp(ins)
  {
    var a, b := Reg(m, ins.vx), Operand(m, ins);
    match ins
    case SetVC(_, _) | SetVV(_, _) => b
    case AddVC(_, _) | AddVV(_, _) => WrappingAdd(a, b)
    case BitorVV(_, _) => a | b
    case BitandVV(_, _) => a & b
    case BitxorVV(_, _) => a ^ b
    case SubVV(_, _) => WrappingSub(a, b)
    case _ => WrappingSub(b, a)  // 8XY7
  }

  /** 8XY6 and 8XYE: Vx shifted in place, then the bit shifted out into VF. */
  function Shift(m: Machine, x: V, right: bool): Outcome {
    var vx := Reg(m, x);
    if right then Step(WithReg(WithReg(m, x, vx >> 1), VF, vx & 1))
    else Step(WithReg(WithReg(m, x, vx << 1), VF, vx & 0x80))
  }

  /** DXYN: `h` bytes from I drawn at (Vx, Vy); the slice panics past 4 KiB. */
  function DrawSprite(m: Machine, x: V, y: V, h: Nibble, overlap: bv8): Outcome {
    var i, n := m.regs.i.value, Nibbles.ToUsize(h);
    if i + n > SIZE then Panicked(SpriteOutOfMemory)
    else
      var drawn := Screens.Draw(ScreenOf(m.mem), Widen(Reg(m, x)), Widen(Reg(m, y)), m.mem[i..i + n]);
      Step(WithReg(m.(mem := WithScreen(m.mem, drawn)), VF, overlap))
  }

  /** FX07 ..= FX29: timers, the key wait and I. */
  function TimersAndI(m: Machine, ins: Instruction): Outcome {
    var i := m.regs.i.value;
    match ins
    case GetDelayTimer(x) => Step(WithReg(m, x, m.regs.delayTimer))
    case SetDelayTimer(x) => Step(m.(regs := m.regs.(delayTimer := Reg(m, x))))
    case SetSoundTimer(x) => Step(m.(regs := m.regs.(soundTimer := Reg(m, x))))
    case AddIV(x) =>
      if i + Widen(Reg(m, x)) > 0xFFFF then Panicked(Overflow) else Step(WithI(m, Addr(i + Widen(Reg(m, x)))))
    case SetISprite(x) => Step(WithI(m, Addr(SYSTEM_INTERPRETER_FONTS_START.value + Widen(Reg(m, x)) * 5)))
    case _ => Refused  // FX0A
  }

  /** FX33, FX55 and FX65: the instructions that move bytes between registers and memory at I. */
  function MemoryOp(m: Machine, ins: Instruction): Outcome
    requires ins.SetIBcd? || ins.RegDump? || ins.RegLoad?
  {
    var i, k := m.regs.i.value, Nibbles.ToUsize(ins.vx.n) + 1;
    match ins
    case SetIBcd(x) =>
      (match CopySlice(m.mem, m.regs.i, Bcd(Reg(m, x)))
       case None => Refused
       case Some(mem) => Step(m.(mem := mem)))
    case RegDump(_) =>
      if i + k > 0x1_0000 then Panicked(Overflow) else Step(m.(mem := Dump(m.mem, i, m.regs, k)))
    case RegLoad(_) =>
      if i + k > 0x1_0000 then Panicked(Overflow) else Step(m.(regs := Load(m.regs, m.mem, i, k)))
  }

  /**
   * The body of each `Decode` callback in `try_step_single`. `overlap` is the
   * value a sprite draw stores in VF: `draw_sprite` returns no collision
   * value, so the model leaves it open.
   */
  function Exec(m: Machine, ins: Instruction, overlap: bv8): Outcome {
    match ins
    case Invalid(_) | CallMcs(_) | DisplayClear | FlowReturn | FlowGoto(_) | FlowCall(_) | SetPcV0PlusC(_) | SetVRandMask(_, _) =>
      Control(m, ins)
    case SkipIfVEqC(_, _) | SkipIfVNeC(_, _) | SkipIfVEqV(_, _) | SkipIfVNeV(_, _) | SkipIfPressed(_) | SkipUnlessPressed(_) =>
      StepCond(m, SkipTaken(m, ins))
    case SetVC(_, _) | AddVC(_, _) | SetVV(_, _) | BitorVV(_, _) | BitandVV(_, _) | BitxorVV(_, _) | AddVV(_, _) | SubVV(_, _) | SubVVAlt(_, _) =>
      Step(WithReg(m, ins.vx, ByteResult(m, ins)))
    case Shr1V(x, _) => Shift(m, x, true)
    case Shl1V(x, _) => Shift(m, x, false)
    case SetIC(a) => Step(WithI(m, a))
    case DrawXYH(x, y, h) => DrawSprite(m, x, y, h, overlap)
    case GetDelayTimer(_) | AwaitKey(_) | SetDelayTimer(_) | SetSoundTimer(_) | AddIV(_) | SetISprite(_) =>
      TimersAndI(m, ins)
    case SetIBcd(_) | RegDump(_) | RegLoad(_) => MemoryOp(m, ins)
  }

  /** `try_step_single`: fetch the big-endian word at PC (reading PC + 1 panics at 0xFFFF), decode, execute. */
  function StepSingle(m: Machine, overlap: bv8): Outcome {
    if m.regs.pc.value == 0xFFFF then Panicked(Overflow)
    else Exec(m, Decode(Peek16(m.mem, m.regs.pc)), overlap)
  }

  /** `saturating_sub(1)` on a timer. */
  function CountDown(b: bv8): bv8 {
    if b == 0 then 0 else b - 1
  }

  /** `step_clocks`: both timers count down by one and stop at zero. */
  function Tick(r: Registers): Registers {
    r.(delayTimer := CountDown(r.delayTimer), soundTimer := CountDown(r.soundTimer))
  }

  /** `n` count-downs of one timer. */
  function CountDowns(b: bv8, n: nat): bv8 {
    if n == 0 then b else CountDown(CountDowns(b, n - 1))
  }

  /** `n` calls of `step_clocks`. */
  function Ticks(r: Registers, n: nat): Registers {
    if n == 0 then r else Tick(Ticks(r, n - 1))
  }

  // ---- Which instructions run, refuse or panic, and where PC goes ------

  /** The instructions that return false without changing anything. */
  predicate Refuses(m: Machine, ins: Instruction) {
    ins.AwaitKey? || (ins.SetIBcd? && m.regs.i.value + 3 > SIZE)
  }

  /**
   * Where PC points after the instruction: the target of a jump, call or
   * return, else past the instruction and, when a skip is taken, past the
   * next one too.
   */
  function Successor(m: Machine, ins: Instruction): int {
    var pc := m.regs.pc.value;
    match ins
    case FlowReturn => if |m.regs.stack| == 0 then pc else m.regs.stack[|m.regs.stack| - 1].value
    case FlowGoto(a) => a.value
    case FlowCall(a) => a.value
    case SetPcV0PlusC(a) => (Widen(Reg(m, V0)) + a.value) % 0x1000
    case _ => if SkipTaken(m, ins) then pc + 4 else pc + 2
  }

  /** The conditions under which an instruction panics. */
  predicate Panics(m: Machine, ins: Instruction) {
    var pc, i := m.regs.pc.value, m.regs.i.value;
    match ins
    case Invalid(_) => true
    case CallMcs(_) => true
    case SetVRandMask(_, _) => true
    case FlowReturn => |m.regs.stack| == 0
    case FlowGoto(_) => false
    case FlowCall(_) => pc + 2 > 0xFFFF
    case SetPcV0PlusC(a) => Widen(Reg(m, V0)) + a.value > 0xFFFF
    case DrawXYH(_, _, h) => i + ToU8(h) > SIZE || pc + 2 > 0xFFFF
    case AddIV(x) => i + Widen(Reg(m, x)) > 0xFFFF || pc + 2 > 0xFFFF
    case RegDump(x) => i + ToU8(x.n) > 0xFFFF || pc + 2 > 0xFFFF
    case RegLoad(x) => i + ToU8(x.n) > 0xFFFF || pc + 2 > 0xFFFF
    case AwaitKey(_) => false
    case SetIBcd(_) => i + 3 <= SIZE && pc + 2 > 0xFFFF
    case _ => Successor(m, ins) > 0xFFFF
  }

  // ---- Exec by group ------------------------------------------------------

  lemma ExecControl(m: Machine, ins: Instruction)
    requires IsControlOp(ins) && !ins.SetIC?
    ensures forall f :: Exec(m, ins, f) == Control(m, ins)
  {
  }

  lemma ExecSkip(m: Machine, ins: Instruction)
    requires IsSkip(ins)
    ensures forall f :: Exec(m, ins, f) == StepCond(m, SkipTaken(m, ins))
  {
  }

  lemma ExecByte(m: Machine, ins: Instruction)
    requires IsByteOp(ins)
    ensures forall f :: Exec(m, ins, f) == Step(WithReg(m, ins.vx, ByteResult(m, ins)))
  {
  }

  lemma ExecShift(m: Machine, ins: Instruction)
    requires ins.Shr1V? || ins.Shl1V?
    ensures forall f :: Exec(m, ins, f) == Shift(m, ins.vx, ins.Shr1V?)
  {
  }

  lemma ExecTimersAndI(m: Machine, ins: Instruction)
    requires ins.GetDelayTimer? || ins.AwaitKey? || ins.SetDelayTimer? || ins.SetSoundTimer?
          || ins.AddIV? || ins.SetISprite?
    ensures forall f :: Exec(m, ins, f) == TimersAndI(m, ins)
  {
  }

  lemma ExecMemoryOp(m: Machine, ins: Instruction)
    requires ins.SetIBcd? || ins.RegDump? || ins.RegLoad?
    ensures forall f :: Exec(m, ins, f) == MemoryOp(m, ins)
  {
  }

  /** The outcome `o` of `ins` refuses, panics and moves PC as `Refuses`, `Panics` and `Successor` say. */
  predicate Agrees(m: Machine, ins: Instruction, o: Outcome) {
    && (o.Refused? <==> Refuses(m, ins))
    && (o.Panicked? <==> Panics(m, ins))
    && (o.Ran? ==> o.next.regs.pc.value == Successor(m, ins))
  }


  lemma ControlOutcome(m: Machine, ins: Instruction, overlap: bv8)
    requires IsControlOp(ins) && !ins.SetIC?
    ensures Agrees(m, ins, Exec(m, ins, overlap))
  {
    assert Exec(m, ins, overlap) == Control(m, ins);
  }

  lemma SkipOutcome(m: Machine, ins: Instruction, overlap: bv8)
    requires IsSkip(ins)
    ensures Agrees(m, ins, Exec(m, ins, overlap))
  {
    assert Exec(m, ins, overlap) == StepCond(m, SkipTaken(m, ins));
  }

  lemma ByteOutcome(m: Machine, ins: Instruction, overlap: bv8)
    requires IsByteOp(ins)
    ensures Agrees(m, ins, Exec(m, ins, overlap))
  {
    assert Exec(m, ins, overlap) == Step(WithReg(m, ins.vx, ByteResult(m, ins)));
  }

  lemma TimersAndIOutcome(m: Machine, ins: Instruction, overlap: bv8)
    requires ins.GetDelayTimer? || ins.AwaitKey? || ins.SetDelayTimer? || ins.SetSoundTimer?
          || ins.AddIV? || ins.SetISprite?
    ensures Agrees(m, ins, Exec(m, ins, overlap))
  {
    assert Exec(m, ins, overlap) == TimersAndI(m, ins);
  }

  lemma BcdOutcome(m: Machine, x: V, overlap: bv8)
    ensures Agrees(m, SetIBcd(x), Exec(m, SetIBcd(x), overlap))
  {
    assert Exec(m, SetIBcd(x), overlap) == MemoryOp(m, SetIBcd(x));
    CopySliceSpec(m.mem, m.regs.i, Bcd(Reg(m, x)));
  }

  lemma DumpOutcome(m: Machine, x: V, overlap: bv8)
    ensures Agrees(m, RegDump(x), Exec(m, RegDump(x), overlap))
  {
    assert Exec(m, RegDump(x), overlap) == MemoryOp(m, RegDump(x));
  }

  lemma LoadOutcome(m: Machine, x: V, overlap: bv8)
    ensures Agrees(m, RegLoad(x), Exec(m, RegLoad(x), overlap))
  {
    assert Exec(m, RegLoad(x), overlap) == MemoryOp(m, RegLoad(x));
    var i, c := m.regs.i.value, ToU8(x.n) + 1;
    if i + c <= 0x1_0000 {
      LoadRegs(m.regs, m.mem, i, c);
    }
  }

  lemma ShiftOutcome(m: Machine, ins: Instruction, overlap: bv8)
    requires ins.Shr1V? || ins.Shl1V?
    ensures Agrees(m, ins, Exec(m, ins, overlap))
  {
    assert Exec(m, ins, overlap) == Shift(m, ins.vx, ins.Shr1V?);
  }

  lemma SetIOutcome(m: Machine, a: Addr, overlap: bv8)
    ensures Agrees(m, SetIC(a), Exec(m, SetIC(a), overlap))
  {
    assert Exec(m, SetIC(a), overlap) == Step(WithI(m, a));
  }

  lemma DrawOutcome(m: Machine, x: V, y: V, h: Nibble, overlap: bv8)
    ensures Agrees(m, DrawXYH(x, y, h), Exec(m, DrawXYH(x, y, h), overlap))
  {
    assert Exec(m, DrawXYH(x, y, h), overlap) == DrawSprite(m, x, y, h, overlap);
  }

  /**
   * Every instruction either refuses, panics or runs, under the conditions
   * above; when it runs, PC ends up at `Successor`.
   */
  lemma ExecOutcome(m: Machine, ins: Instruction, overlap: bv8)
    ensures Agrees(m, ins, Exec(m, ins, overlap))
  {
    match ins
    case Invalid(_) | CallMcs(_) | DisplayClear | FlowReturn | FlowGoto(_) | FlowCall(_) | SetPcV0PlusC(_) | SetVRandMask(_, _) =>
      ControlOutcome(m, ins, overlap);
    case SkipIfVEqC(_, _) | SkipIfVNeC(_, _) | SkipIfVEqV(_, _) | SkipIfVNeV(_, _) | SkipIfPressed(_) | SkipUnlessPressed(_) =>
      SkipOutcome(m, ins, overlap);
    case SetVC(_, _) | AddVC(_, _) | SetVV(_, _) | BitorVV(_, _) | BitandVV(_, _) | BitxorVV(_, _) | AddVV(_, _) | SubVV(_, _) | SubVVAlt(_, _) =>
      ByteOutcome(m, ins, overlap);
    case Shr1V(_, _) | Shl1V(_, _) => ShiftOutcome(m, ins, overlap);
    case SetIC(a) => SetIOutcome(m, a, overlap);
    case DrawXYH(x, y, h) => DrawOutcome(m, x, y, h, overlap);
    case GetDelayTimer(_) | AwaitKey(_) | SetDelayTimer(_) | SetSoundTimer(_) | AddIV(_) | SetISprite(_) =>
      TimersAndIOutcome(m, ins, overlap);
    case SetIBcd(x) => BcdOutcome(m, x, overlap);
    case RegDump(x) => DumpOutcome(m, x, overlap);
    case RegLoad(x) => LoadOutcome(m, x, overlap);
  }

  /** An instruction the decoder produces never overflows in `set_pc_v0_plus_c`, and its target stays in 4 KiB. */
  lemma JumpOffsetStaysInMemory(m: Machine, a: Addr, overlap: bv8)
    requires a.value < 0x1000
    ensures Exec(m, SetPcV0PlusC(a), overlap).Ran?
    ensures Exec(m, SetPcV0PlusC(a), overlap).next.regs.pc.value < 0x1000
    ensures Exec(m, SetPcV0PlusC(a), overlap).next.regs.pc.value == (Reg(m, V0) as int + a.value) % 0x1000
  {
  }

  /** Fetching at PC 0xFFFF panics: `read16` computes PC + 1. */
  lemma FetchAtTop(m: Machine, overlap: bv8)
    requires m.regs.pc.value == 0xFFFF
    ensures StepSingle(m, overlap) == Panicked(Overflow)
  {
  }

  /** The open VF value matters only to a sprite draw. */
  lemma OverlapOnlyForDraw(m: Machine, ins: Instruction, f: bv8, g: bv8)
    requires !ins.DrawXYH?
    ensures Exec(m, ins, f) == Exec(m, ins, g)
  {
  }

  // ---- Arithmetic, logic and shifts -------------------------------------

  /**
   * The byte operations (6XNN, 7XNN, 8XY0 ..= 8XY5, 8XY7) store their 8-bit
   * wrapping result in Vx and change nothing else but PC: in particular VF is
   * not a carry or borrow flag and keeps its value unless X is F.
   */
  lemma ByteOpsWriteOnlyVx(m: Machine, ins: Instruction, overlap: bv8)
    requires IsByteOp(ins)
    requires m.regs.pc.value + 2 <= 0xFFFF
    ensures Exec(m, ins, overlap).Ran?
    ensures var n := Exec(m, ins, overlap).next;
      && n.mem == m.mem
      && n.regs == m.regs.(v := n.regs.v, pc := Addr(m.regs.pc.value + 2))
      && (forall y: V :: y != ins.vx ==> Reg(n, y) == Reg(m, y))
      && Reg(n, ins.vx) == ByteResult(m, ins)
  {
    assert Exec(m, ins, overlap) == Step(WithReg(m, ins.vx, ByteResult(m, ins)));
  }

  /** 8XY4 with 0xFF + 0x01 wraps to 0x00 and leaves VF as it was. */
  lemma AddWrapsWithoutCarry(m: Machine, overlap: bv8)
    requires m.regs.pc.value + 2 <= 0xFFFF
    requires Reg(m, Nth(1)) == 0xFF && Reg(m, Nth(2)) == 0x01
    ensures Exec(m, AddVV(Nth(1), Nth(2)), overlap).Ran?
    ensures Reg(Exec(m, AddVV(Nth(1), Nth(2)), overlap).next, Nth(1)) == 0x00
    ensures Reg(Exec(m, AddVV(Nth(1), Nth(2)), overlap).next, VF) == Reg(m, VF)
  {
    ByteOpsWriteOnlyVx(m, AddVV(Nth(1), Nth(2)), overlap);
  }

  /** 8XY5 with 0x01 - 0x02 wraps to 0xFF and leaves VF as it was. */
  lemma SubWrapsWithoutBorrow(m: Machine, overlap: bv8)
    requires m.regs.pc.value + 2 <= 0xFFFF
    requires Reg(m, Nth(1)) == 0x01 && Reg(m, Nth(2)) == 0x02
    ensures Exec(m, SubVV(Nth(1), Nth(2)), overlap).Ran?
    ensures Reg(Exec(m, SubVV(Nth(1), Nth(2)), overlap).next, Nth(1)) == 0xFF
    ensures Reg(Exec(m, SubVV(Nth(1), Nth(2)), overlap).next, VF) == Reg(m, VF)
  {
    ByteOpsWriteOnlyVx(m, SubVV(Nth(1), Nth(2)), overlap);
  }

  /**
   * 8XY6 shifts Vx right in place, ignoring Y, and then stores the bit
   * shifted out in VF: Vx halves unless X is F, where the flag wins.
   */
  lemma ShiftRight(m: Machine, x: V, y: V, y': V, overlap: bv8)
    requires m.regs.pc.value + 2 <= 0xFFFF
    ensures Exec(m, Shr1V(x, y), overlap) == Exec(m, Shr1V(x, y'), overlap)
    ensures Exec(m, Shr1V(x, y), overlap).Ran?
    ensures var n := Exec(m, Shr1V(x, y), overlap).next;
      && Reg(n, VF) as int == Reg(m, x) as int % 2
      && (x != VF ==> Reg(n, x) as int == Reg(m, x) as int / 2)
      && (forall z: V :: z != x && z != VF ==> Reg(n, z) == Reg(m, z))
      && n.mem == m.mem && n.regs.i == m.regs.i && n.regs.stack == m.regs.stack
  {
    assert Exec(m, Shr1V(x, y), overlap) == Shift(m, x, true) == Exec(m, Shr1V(x, y'), overlap);
    HalveBits(Reg(m, x));
  }

  lemma HalveBits(b: bv8)
    ensures (b >> 1) as int == b as int / 2 && (b & 1) as int == b as int % 2
  {
  }

  /**
   * 8XYE shifts Vx left in place, ignoring Y, and stores `Vx & 0x80` in VF:
   * 0x80 rather than 1 when the top bit was set.
   */
  lemma ShiftLeft(m: Machine, x: V, y: V, y': V, overlap: bv8)
    requires m.regs.pc.value + 2 <= 0xFFFF
    ensures Exec(m, Shl1V(x, y), overlap) == Exec(m, Shl1V(x, y'), overlap)
    ensures Exec(m, Shl1V(x, y), overlap).Ran?
    ensures var n := Exec(m, Shl1V(x, y), overlap).next;
      && Reg(n, VF) == (if Reg(m, x) as int >= 0x80 then 0x80 else 0x00)
      && (x != VF ==> Reg(n, x) as int == Reg(m, x) as int * 2 % 0x100)
      && (forall z: V :: z != x && z != VF ==> Reg(n, z) == Reg(m, z))
      && n.mem == m.mem && n.regs.i == m.regs.i && n.regs.stack == m.regs.stack
  {
    assert Exec(m, Shl1V(x, y), overlap) == Shift(m, x, false) == Exec(m, Shl1V(x, y'), overlap);
    DoubleBits(Reg(m, x));
  }

  lemma DoubleBits(b: bv8)
    ensures (b << 1) as int == b as int * 2 % 0x100 && (b & 0x80) == (if b as int >= 0x80 then 0x80 else 0x00)
  {
  }

  // ---- Calls, timers, I ------------------------------------------------

  /** 2NNN then 00EE comes back to the instruction after the call with the stack as it was. */
  lemma CallThenReturn(m: Machine, a: Addr, overlap: bv8)
    requires m.regs.pc.value + 2 <= 0xFFFF
    ensures Exec(m, FlowCall(a), overlap).Ran?
    ensures var c := Exec(m, FlowCall(a), overlap).next;
      && c.regs.pc == a
      && Exec(c, FlowReturn, overlap) == Ran(WithPc(m, Addr(m.regs.pc.value + 2)))
  {
    var c := Exec(m, FlowCall(a), overlap).next;
    assert c.regs.stack[..|c.regs.stack| - 1] == m.regs.stack;
  }

  /** 00EE on an empty stack panics. */
  lemma ReturnNeedsStack(m: Machine, overlap: bv8)
    requires m.regs.stack == []
    ensures Exec(m, FlowReturn, overlap) == Panicked(ReturnWithoutStack)
  {
  }

  /**
   * FX29 points I at `5 * Vx` from address 0, while the font sits at 0x050:
   * for a digit 0 ..= F the five bytes I then selects end before the font starts.
   */
  lemma SpriteAddressMissesFont(m: Machine, x: V, overlap: bv8)
    requires m.regs.pc.value + 2 <= 0xFFFF
    ensures Exec(m, SetISprite(x), overlap).Ran?
    ensures Exec(m, SetISprite(x), overlap).next.regs.i.value == 5 * Reg(m, x) as int
    ensures Reg(m, x) < 16 ==> Exec(m, SetISprite(x), overlap).next.regs.i.value + 5 <= TYPICAL_FONTS_START.value
  {
  }

  /** A timer counted down `n` times has dropped by `n`, stopping at zero. */
  lemma {:induction false} CountDownsSaturate(b: bv8, n: nat)
    ensures CountDowns(b, n) as int == if b as int <= n then 0 else b as int - n
  {
    if n > 0 {
      CountDownsSaturate(b, n - 1);
      var t := CountDowns(b, n - 1);
      if t != 0 {
        Decrement(t);
      }
    }
  }

  /** `n` calls of `step_clocks` count each timer down `n` times and change nothing else. */
  lemma {:induction false} TicksCountDown(r: Registers, n: nat)
    ensures Ticks(r, n) == r.(delayTimer := CountDowns(r.delayTimer, n), soundTimer := CountDowns(r.soundTimer, n))
  {
    if n > 0 {
      TicksCountDown(r, n - 1);
    }
  }

  /** `step_clocks`, `n` times: each timer drops by `n` and stops at zero; nothing else changes. */
  lemma TicksSaturate(r: Registers, n: nat)
    ensures Ticks(r, n).delayTimer as int == if r.delayTimer as int <= n then 0 else r.delayTimer as int - n
    ensures Ticks(r, n).soundTimer as int == if r.soundTimer as int <= n then 0 else r.soundTimer as int - n
    ensures Ticks(r, n) == r.(delayTimer := Ticks(r, n).delayTimer, soundTimer := Ticks(r, n).soundTimer)
  {
    TicksCountDown(r, n);
    CountDownsSaturate(r.delayTimer, n);
    CountDownsSaturate(r.soundTimer, n);
  }

  lemma Decrement(b: bv8)
    requires b != 0
    ensures (b - 1) as int == b as int - 1
  {
  }

  // ---- BCD, register dump and load ---------------------------------------

  /** The three bytes of `Bcd` are decimal digits that spell the byte. */
  lemma BcdDigits(b: bv8)
    ensures Bcd(b)[0] < 3 && Bcd(b)[1] < 10 && Bcd(b)[2] < 10
    ensures Bcd(b)[0] as int * 100 + Bcd(b)[1] as int * 10 + Bcd(b)[2] as int == b as int
  {
  }

  /** `test_bcd`. */
  lemma BcdOf123()
    ensures Bcd(123) == [1, 2, 3]
  {
  }

  /**
   * FX33 stores the three decimal digits of Vx (see `Bcd`) at I, I + 1, I + 2
   * when they fit below 4 KiB, changing no other cell and no register but PC;
   * otherwise it refuses.
   */
  lemma BcdStore(m: Machine, x: V, overlap: bv8)
    requires m.regs.pc.value + 2 <= 0xFFFF
    ensures Exec(m, SetIBcd(x), overlap).Refused? <==> m.regs.i.value + 3 > SIZE
    ensures Exec(m, SetIBcd(x), overlap).Ran? ==>
      var n, i := Exec(m, SetIBcd(x), overlap).next, m.regs.i.value;
      && n.mem[i..i + 3] == Bcd(Reg(m, x))
      && (forall k :: 0 <= k < SIZE && !(i <= k < i + 3) ==> n.mem[k] == m.mem[k])
      && n.regs == m.regs.(pc := Addr(m.regs.pc.value + 2))
  {
    var i, d := m.regs.i.value, Bcd(Reg(m, x));
    assert Exec(m, SetIBcd(x), overlap) == MemoryOp(m, SetIBcd(x));
    if i + 3 <= SIZE {
      var mem := Splice(m.mem, i, d);
      assert Exec(m, SetIBcd(x), overlap) == Ran(Machine(m.regs.(pc := Addr(m.regs.pc.value + 2)), mem));
      assert mem[i..i + 3] == d;
    }
  }

  /** The cell `reg_dump` and `reg_load` use for Vk: (I + k) masked to 12 bits. */
  function Slot(i: nat, k: nat): (j: nat)
    ensures i + k <= 0xFFFF ==> j == Cell(Addr(i + k))
    ensures j < SIZE
  {
    (i + k) % SIZE
  }

  /** How far past I, modulo 4096, cell `j` lies. */
  function Offset(i: nat, j: nat): nat {
    (j - i) % SIZE
  }

  /** Sixteen consecutive slots are distinct cells. */
  lemma SlotsDistinct(i: nat, k: nat, l: nat)
    requires k < l < 16
    ensures Slot(i, k) != Slot(i, l)
  {
  }

  /** Slot k lies k cells past I. */
  lemma SlotOffset(i: nat, l: nat)
    requires l < 16
    ensures Offset(i, Slot(i, l)) == l
  {
  }

  /** Registers `Nth(k)` for distinct k are distinct. */
  lemma NthDistinct(k: nat, l: nat)
    requires k < 16 && l < 16 && k != l
    ensures Nth(k) != Nth(l)
  {
  }

  /** After `reg_dump`'s loop has run `c` times, the slot of Vk holds Vk for k < c; no other cell moved. */
  lemma {:induction false} DumpCells(mem: Bytes4K, i: nat, r: Registers, c: nat)
    requires c <= 16 && i + c <= 0x1_0000
    ensures forall k :: 0 <= k < c ==> Dump(mem, i, r, c)[Slot(i, k)] == Get(r, Nth(k))
    ensures forall j :: 0 <= j < SIZE && Offset(i, j) >= c ==> Dump(mem, i, r, c)[j] == mem[j]
  {
    if c > 0 {
      var d := Dump(mem, i, r, c - 1);
      DumpCells(mem, i, r, c - 1);
      assert Dump(mem, i, r, c) == d[Slot(i, c - 1) := Get(r, Nth(c - 1))];
      forall k | 0 <= k < c - 1
        ensures Dump(mem, i, r, c)[Slot(i, k)] == Get(r, Nth(k))
      {
        SlotsDistinct(i, k, c - 1);
      }
      forall j | 0 <= j < SIZE && Offset(i, j) >= c
        ensures Dump(mem, i, r, c)[j] == mem[j]
      {
        SlotOffset(i, c - 1);
      }
    }
  }

  /** After `reg_load`'s loop has run `c` times, Vk holds the slot of Vk for k < c; every other register is as it was. */
  lemma {:induction false} LoadRegs(r: Registers, mem: Bytes4K, i: nat, c: nat)
    requires c <= 16 && i + c <= 0x1_0000
    ensures forall k :: 0 <= k < c ==> Get(Load(r, mem, i, c), Nth(k)) == mem[Slot(i, k)]
    ensures forall k :: c <= k < 16 ==> Get(Load(r, mem, i, c), Nth(k)) == Get(r, Nth(k))
    ensures Load(r, mem, i, c) == r.(v := Load(r, mem, i, c).v)
  {
    if c > 0 {
      var l := Load(r, mem, i, c - 1);
      LoadRegs(r, mem, i, c - 1);
      assert Load(r, mem, i, c) == Set(l, Nth(c - 1), mem[Slot(i, c - 1)]);
      forall k | 0 <= k < 16 && k != c - 1
        ensures Get(Load(r, mem, i, c), Nth(k)) == Get(l, Nth(k))
      {
        NthDistinct(k, c - 1);
      }
    }
  }

  /** What a completed FX55 leaves in memory. */
  lemma DumpRan(m: Machine, x: V, overlap: bv8)
    requires Exec(m, RegDump(x), overlap).Ran?
    ensures m.regs.i.value + ToU8(x.n) + 1 <= 0x1_0000
    ensures Exec(m, RegDump(x), overlap).next.mem == Dump(m.mem, m.regs.i.value, m.regs, ToU8(x.n) + 1)
  {
    assert Exec(m, RegDump(x), overlap) == MemoryOp(m, RegDump(x));
  }

  /** What a completed FX65 leaves in the registers. */
  lemma LoadRan(m: Machine, x: V, overlap: bv8)
    requires m.regs.i.value + ToU8(x.n) + 1 <= 0x1_0000 && m.regs.pc.value + 2 <= 0xFFFF
    ensures Exec(m, RegLoad(x), overlap).Ran?
    ensures Exec(m, RegLoad(x), overlap).next.regs.v == Load(m.regs, m.mem, m.regs.i.value, ToU8(x.n) + 1).v
  {
    assert Exec(m, RegLoad(x), overlap) == MemoryOp(m, RegLoad(x));
    LoadRegs(m.regs, m.mem, m.regs.i.value, ToU8(x.n) + 1);
  }

  /** FX55 then FX65 with the same I brings V0 ..= Vx back, whatever happened to the registers in between. */
  lemma DumpThenLoad(m: Machine, x: V, m': Machine, overlap: bv8)
    requires Exec(m, RegDump(x), overlap).Ran?
    requires m'.mem == Exec(m, RegDump(x), overlap).next.mem && m'.regs.i == m.regs.i
    requires m'.regs.pc.value + 2 <= 0xFFFF
    ensures Exec(m', RegLoad(x), overlap).Ran?
    ensures forall k :: 0 <= k <= ToU8(x.n) ==> Reg(Exec(m', RegLoad(x), overlap).next, Nth(k)) == Reg(m, Nth(k))
  {
    var i, c := m.regs.i.value, ToU8(x.n) + 1;
    DumpRan(m, x, overlap);
    LoadRan(m', x, overlap);
    DumpCells(m.mem, i, m.regs, c);
    LoadRegs(m'.regs, m'.mem, i, c);
    var v := Exec(m', RegLoad(x), overlap).next.regs.v;
    forall k | 0 <= k <= ToU8(x.n)
      ensures Reg(Exec(m', RegLoad(x), overlap).next, Nth(k)) == Reg(m, Nth(k))
    {
      assert Reg(Exec(m', RegLoad(x), overlap).next, Nth(k)) == Get(Load(m'.regs, m'.mem, i, c), Nth(k));
    }
  }

  // ---- Screen ------------------------------------------------------------

  /** 00E0 darkens every pixel and leaves memory below the screen alone. */
  lemma ClearDarkens(m: Machine, overlap: bv8)
    requires m.regs.pc.value + 2 <= 0xFFFF
    ensures Exec(m, DisplayClear, overlap).Ran?
    ensures var n := Exec(m, DisplayClear, overlap).next;
      && (forall px: nat, py: nat :: (Screens.OnGrid(px, py) ==> !Screens.Pixel(ScreenOf(n.mem), px, py)))
      && n.mem[..0xF00] == m.mem[..0xF00] && n.regs == m.regs.(pc := Addr(m.regs.pc.value + 2))
  {
    forall px: nat, py: nat | Screens.OnGrid(px, py) ensures !Screens.Pixel(Screens.Blank(), px, py) {
      Screens.BlankIsDark(px, py);
    }
  }

  /** A DXYN whose sprite lies inside memory redraws the screen, sets VF to the open value and steps. */
  lemma DrawRan(m: Machine, x: V, y: V, h: Nibble, overlap: bv8)
    requires m.regs.i.value + ToU8(h) <= SIZE && m.regs.pc.value + 2 <= 0xFFFF
    ensures var i := m.regs.i.value;
      var drawn := Screens.Draw(ScreenOf(m.mem), Widen(Reg(m, x)), Widen(Reg(m, y)), m.mem[i..i + ToU8(h)]);
      Exec(m, DrawXYH(x, y, h), overlap)
        == Ran(Machine(Set(m.regs, VF, overlap).(pc := Addr(m.regs.pc.value + 2)), WithScreen(m.mem, drawn)))
  {
    assert Exec(m, DrawXYH(x, y, h), overlap) == DrawSprite(m, x, y, h, overlap);
  }

  /**
   * DXYN with the sprite inside memory flips exactly the on-grid pixels its
   * set bits cover, leaves memory below the screen and every register but VF
   * and PC alone.
   */
  lemma DrawFlips(m: Machine, x: V, y: V, h: Nibble, overlap: bv8, px: nat, py: nat)
    requires Screens.OnGrid(px, py)
    requires m.regs.i.value + ToU8(h) <= SIZE && m.regs.pc.value + 2 <= 0xFFFF
    ensures Exec(m, DrawXYH(x, y, h), overlap).Ran?
    ensures var n, i := Exec(m, DrawXYH(x, y, h), overlap).next, m.regs.i.value;
      && Screens.Pixel(ScreenOf(n.mem), px, py) == (
        Screens.Pixel(ScreenOf(m.mem), px, py)
          != (Screens.Covered(Widen(Reg(m, x)), Widen(Reg(m, y)), m.mem[i..i + ToU8(h)], px, py)))
      && n.mem[..0xF00] == m.mem[..0xF00]
      && (forall z: V :: z != VF ==> Reg(n, z) == Reg(m, z))
      && n.regs.i == m.regs.i && n.regs.stack == m.regs.stack
  {
    var i := m.regs.i.value;
    DrawRan(m, x, y, h, overlap);
    Screens.DrawPixel(ScreenOf(m.mem), Widen(Reg(m, x)), Widen(Reg(m, y)), m.mem[i..i + ToU8(h)], px, py);
  }

  /**
   * Drawing the same sprite twice at the same place restores the screen,
   * provided the sprite lies below the screen and neither coordinate lives in VF.
   */
  lemma DrawTwiceRestores(m: Machine, x: V, y: V, h: Nibble, f: bv8, g: bv8)
    requires x != VF && y != VF
    requires m.regs.i.value + ToU8(h) <= 0xF00 && m.regs.pc.value + 4 <= 0xFFFF
    ensures Exec(m, DrawXYH(x, y, h), f).Ran?
    ensures var n := Exec(m, DrawXYH(x, y, h), f).next;
      Exec(n, DrawXYH(x, y, h), g).Ran? && ScreenOf(Exec(n, DrawXYH(x, y, h), g).next.mem) == ScreenOf(m.mem)
  {
    var i := m.regs.i.value;
    DrawRan(m, x, y, h, f);
    var n := Exec(m, DrawXYH(x, y, h), f).next;
    assert n.mem[i..i + ToU8(h)] == m.mem[i..i + ToU8(h)] by {
      assert n.mem[..0xF00] == m.mem[..0xF00];
    }
    DrawRan(n, x, y, h, g);
    Screens.DrawTwice(ScreenOf(m.mem), Widen(Reg(m, x)), Widen(Reg(m, y)), m.mem[i..i + ToU8(h)]);
  }
}
