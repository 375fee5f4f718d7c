/**
 * `Context`: a register file and a 4 KiB memory, stepped one instruction at
 * a time. Each method is proved against the `Machines` function it carries
 * out: `try_step_single` against `StepSingle`, each instruction against
 * `Exec`.
 */
module Contexts {
  import opened Prelude
  import opened Nibbles
  import opened RegisterIndex
  import opened Addresses
  import opened Decoding
  import opened RegisterFile
  import opened Memories
  import opened Machines
  import Screens

  /**
   * A method's `(ok, panic)` report agrees with outcome `o` of the machine
   * `before`, leaving `after`: `ok` is the `bool` the source returns, and a
   * `panic` stands for the source panicking, after which nothing is said of
   * the state.
   */
  predicate Reports(o: Outcome, before: Machine, ok: bool, panic: Option<Abort>, after: Machine) {
    match o
    case Ran(next) => ok && panic.None? && after == next
    case Refused => !ok && panic.None? && after == before
    case Panicked(why) => !ok && panic == Some(why)
  }

  /** The machine after `|overlaps|` steps, where step k leaves `overlaps[k]` in VF if it draws a sprite. */
  function Run(m: Machine, overlaps: seq<bv8>): Outcome
    decreases |overlaps|
  {
    if overlaps == [] then Ran(m)
    else match Run(m, overlaps[..|overlaps| - 1])
      case Ran(p) => StepSingle(p, overlaps[|overlaps| - 1])
      case other => other
  }

  class Context {
    var registers: Registers
    const memory: Memory4K

    predicate Valid()
      reads this, memory
    {
      memory.Valid()
    }

    function State(): Machine
      reads this, memory, memory.bytes
      requires Valid()
    {
      Machine(registers, memory.Contents())
    }

    /** `new` / `Default`: zeroed registers and memory. */
    constructor ()
      ensures Valid() && fresh(memory) && fresh(memory.bytes)
      ensures State() == Machine(RegisterFile.Default(), Zeros())
    {
      registers := RegisterFile.Default();
      memory := new Memory4K();
    }

    /** `screen`: the screen view over this context's memory. */
    method Screen() returns (s: Screens.ScreenMonochrome64x32)
      requires Valid()
      ensures fresh(s) && s.Valid() && s.buf == memory.bytes && s.base == SYSTEM_DISPLAY_START.value
      ensures s.View() == ScreenOf(State().mem)
    {
      s := memory.Screen();
    }

    /** `advance`: `pc += n`, panicking past 0xFFFF. */
    method Advance(n: nat) returns (ok: bool, panic: Option<Abort>)
      requires Valid()
      modifies this
      ensures Reports(Machines.Advance(old(State()), n), old(State()), ok, panic, State())
    {
      if registers.pc.value + n > 0xFFFF {
        return false, Some(Overflow);
      }
      registers := registers.(pc := Addr(registers.pc.value + n));
      return true, None;
    }

    /** `step`. */
    method Step() returns (ok: bool, panic: Option<Abort>)
      requires Valid()
      modifies this
      ensures Reports(Machines.Step(old(State())), old(State()), ok, panic, State())
    {
      ok, panic := Advance(2);
    }

    /** `step_cond`. */
    method StepCond(skip: bool) returns (ok: bool, panic: Option<Abort>)
      requires Valid()
      modifies this
      ensures Reports(Machines.StepCond(old(State()), skip), old(State()), ok, panic, State())
    {
      ok, panic := Advance(if skip then 4 else 2);
    }

    /** `step_clocks`: both timers count down, saturating at zero. */
    method StepClocks()
      requires Valid()
      modifies this
      ensures registers == Tick(old(registers))
    {
      var r := registers;
      registers := r.(delayTimer := if r.delayTimer == 0 then 0 else r.delayTimer - 1);
      registers := registers.(soundTimer := if r.soundTimer == 0 then 0 else r.soundTimer - 1);
    }

    /**
     * `try_step_single`: fetch the word at PC, decode it, run it. True when it
     * ran, false when it refused; a panic is reported in `panic`. A sprite draw
     * leaves in VF whatever the state shows there.
     */
    method TryStepSingle() returns (ok: bool, panic: Option<Abort>)
      requires Valid()
      modifies this, memory.bytes
      ensures Reports(StepSingle(old(State()), State().regs.v[15]), old(State()), ok, panic, State())
    {
      if registers.pc.value == 0xFFFF {
        return false, Some(Overflow);
      }
      var op := memory.Read16(registers.pc);
      var ins := Decode(op);
      ok, panic := Execute(ins);
    }

    /** The `Decode` callbacks of `try_step_single`. */
    method Execute(ins: Instruction) returns (ok: bool, panic: Option<Abort>)
      requires Valid()
      modifies this, memory.bytes
      ensures Reports(Exec(old(State()), ins, State().regs.v[15]), old(State()), ok, panic, State())
    {
      if IsControlOp(ins) {
        ok, panic := ExecuteControlOps(ins);
      } else if IsRegisterOp(ins) {
        ok, panic := ExecuteRegisterOps(ins);
      } else {
        ok, panic := ExecuteOtherOps(ins);
      }
    }

    /** 0NNN, 00E0, 00EE, 1NNN, 2NNN, ANNN, BNNN and CXNN. */
    method ExecuteControlOps(ins: Instruction) returns (ok: bool, panic: Option<Abort>)
      requires Valid() && IsControlOp(ins)
      modifies this, memory.bytes
      ensures Reports(Exec(old(State()), ins, State().regs.v[15]), old(State()), ok, panic, State())
    {
      if ins.SetIC? {
        ok, panic := ExecuteSetI(ins.addr);
      } else {
        ghost var before := State();
        ok, panic := ExecuteControl(ins);
        ExecControl(before, ins);
      }
    }

    /** 3XNN, 4XNN, 5XY0, 6XNN, 7XNN, 8XY0 ..= 8XYE, 9XY0, EX9E and EXA1. */
    method ExecuteRegisterOps(ins: Instruction) returns (ok: bool, panic: Option<Abort>)
      requires Valid() && IsRegisterOp(ins)
      modifies this
      ensures Reports(Exec(old(State()), ins, State().regs.v[15]), old(State()), ok, panic, State())
    {
      ghost var before := State();
      if IsByteOp(ins) {
        ok, panic := ExecuteByte(ins);
        ExecByte(before, ins);
      } else if ins.Shr1V? || ins.Shl1V? {
        ok, panic := ExecuteShift(ins);
        ExecShift(before, ins);
      } else {
        ok, panic := ExecuteSkip(ins);
        ExecSkip(before, ins);
      }
    }

    /** DXYN and FX07 ..= FX65. */
    method ExecuteOtherOps(ins: Instruction) returns (ok: bool, panic: Option<Abort>)
      requires Valid() && !IsControlOp(ins) && !IsRegisterOp(ins)
      modifies this, memory.bytes
      ensures Reports(Exec(old(State()), ins, State().regs.v[15]), old(State()), ok, panic, State())
    {
      ghost var before := State();
      match ins
      case DrawXYH(x, y, h) =>
        ok, panic := ExecuteDraw(x, y, h);
      case GetDelayTimer(_) | AwaitKey(_) | SetDelayTimer(_) | SetSoundTimer(_) =>
        ok, panic := ExecuteTimers(ins);
        ExecTimersAndI(before, ins);
      case AddIV(x) =>
        ok, panic := ExecuteAddI(x);
        ExecTimersAndI(before, ins);
      case SetISprite(x) =>
        ok, panic := ExecuteSpriteI(x);
        ExecTimersAndI(before, ins);
      case SetIBcd(x) =>
        ok, panic := ExecuteBcd(x);
        ExecMemoryOp(before, ins);
      case RegDump(x) =>
        ok, panic := ExecuteDump(x);
        ExecMemoryOp(before, ins);
      case RegLoad(x) =>
        ok, panic := ExecuteLoad(x);
        ExecMemoryOp(before, ins);
    }

    /** 0NNN, 00E0, 00EE, 1NNN, 2NNN, BNNN, CXNN. */
    method ExecuteControl(ins: Instruction) returns (ok: bool, panic: Option<Abort>)
      requires Valid() && IsControlOp(ins) && !ins.SetIC?
      modifies this, memory.bytes
      ensures Reports(Control(old(State()), ins), old(State()), ok, panic, State())
    {
      match ins {
      case Invalid(op) =>
        return false, Some(InvalidInstruction(op));
      case CallMcs(a) =>
        return false, Some(McsCall(a));
      case DisplayClear =>
        var s := Screen();
        s.Clear();
        assert memory.Contents() == WithScreen(old(memory.Contents()), Screens.Blank()) by {
          assert memory.Contents() == memory.bytes[..0xF00] + s.View();
        }
        ok, panic := Step();
      case FlowReturn =>
        var stack := registers.stack;
        if |stack| == 0 {
          return false, Some(ReturnWithoutStack);
        }
        registers := registers.(stack := stack[..|stack| - 1]);
        registers := registers.(pc := stack[|stack| - 1]);
        return true, None;
      case FlowGoto(a) =>
        registers := registers.(pc := a);
        return true, None;
      case FlowCall(a) =>
        if registers.pc.value + 2 > 0xFFFF {
          return false, Some(Overflow);
        }
        registers := registers.(stack := registers.stack + [Addr(registers.pc.value + 2)]);
        registers := registers.(pc := a);
        return true, None;
      case SetPcV0PlusC(a) =>
        var target := Widen(Get(registers, V0)) + a.value;
        if target > 0xFFFF {
          return false, Some(Overflow);
        }
        registers := registers.(pc := Addr(target % 0x1000));
        return true, None;
      case SetVRandMask(_, _) =>
        return false, Some(RandNotImplemented);
      }
    }

    /** 3XNN, 4XNN, 5XY0, 9XY0, EX9E (always skips), EXA1 (never skips). */
    method ExecuteSkip(ins: Instruction) returns (ok: bool, panic: Option<Abort>)
      requires Valid() && IsSkip(ins)
      modifies this
      ensures Reports(Machines.StepCond(old(State()), SkipTaken(old(State()), ins)), old(State()), ok, panic, State())
    {
      var skip: bool;
      match ins {
      case SkipIfVEqC(x, c) => skip := Get(registers, x) == c;
      case SkipIfVNeC(x, c) => skip := Get(registers, x) != c;
      case SkipIfVEqV(x, y) => skip := Get(registers, x) == Get(registers, y);
      case SkipIfVNeV(x, y) => skip := Get(registers, x) != Get(registers, y);
      case SkipIfPressed(_) => skip := true;
      case SkipUnlessPressed(_) => skip := false;
      }
      ok, panic := StepCond(skip);
    }

    /** 6XNN, 7XNN, 8XY0 ..= 8XY5, 8XY7: Vx gets a byte, with wrapping arithmetic. */
    method ExecuteByte(ins: Instruction) returns (ok: bool, panic: Option<Abort>)
      requires Valid()
      requires IsByteOp(ins)
      modifies this
      ensures Reports(Machines.Step(WithReg(old(State()), ins.vx, ByteResult(old(State()), ins))), old(State()), ok, panic, State())
    {
      var b := ByteValue(ins);
      registers := Set(registers, ins.vx, b);
      ok, panic := Step();
    }

    /** The byte each of 6XNN, 7XNN, 8XY0 ..= 8XY5 and 8XY7 stores in Vx. */
    method ByteValue(ins: Instruction) returns (b: bv8)
      requires Valid() && IsByteOp(ins)
      ensures b == ByteResult(State(), ins)
    {
      var r := registers;
      match ins {
      case SetVC(_, c) => b := c;
      case AddVC(x, c) => b := WrappingAdd(Get(r, x), c);
      case SetVV(_, y) => b := Get(r, y);
      case BitorVV(x, y) => b := Get(r, x) | Get(r, y);
      case BitandVV(x, y) => b := Get(r, x) & Get(r, y);
      case BitxorVV(x, y) => b := Get(r, x) ^ Get(r, y);
      case AddVV(x, y) => b := WrappingAdd(Get(r, x), Get(r, y));
      case SubVV(x, y) => b := WrappingSub(Get(r, x), Get(r, y));
      case SubVVAlt(x, y) => b := WrappingSub(Get(r, y), Get(r, x));
      }
    }

    /** 8XY6 and 8XYE: shift Vx in place, then store the carry in VF. */
    method ExecuteShift(ins: Instruction) returns (ok: bool, panic: Option<Abort>)
      requires Valid() && (ins.Shr1V? || ins.Shl1V?)
      modifies this
      ensures Reports(Shift(old(State()), ins.vx, ins.Shr1V?), old(State()), ok, panic, State())
    {
      var x := ins.vx;
      var vx := Get(registers, x);
      var carry: bv8;
      if ins.Shr1V? {
        carry := vx & 1;
        registers := Set(registers, x, vx >> 1);
      } else {
        carry := vx & 0x80;
        registers := Set(registers, x, vx << 1);
      }
      registers := Set(registers, VF, carry);
      ok, panic := Step();
    }

    /** ANNN. */
    method ExecuteSetI(a: Addr) returns (ok: bool, panic: Option<Abort>)
      requires Valid()
      modifies this
      ensures Reports(Machines.Step(WithI(old(State()), a)), old(State()), ok, panic, State())
    {
      registers := registers.(i := a);
      ok, panic := Step();
    }

    /**
     * DXYN: copy `h` bytes from I (a slice that panics past 4 KiB), draw them
     * at (Vx, Vy), store the draw's result in VF and step. The screen code
     * returns no result, so the value stored is left open.
     */
    method ExecuteDraw(x: V, y: V, h: Nibble) returns (ok: bool, panic: Option<Abort>)
      requires Valid()
      modifies this, memory.bytes
      ensures Reports(DrawSprite(old(State()), x, y, h, State().regs.v[15]), old(State()), ok, panic, State())
    {
      var vx, vy := Get(registers, x), Get(registers, y);
      var i, n := registers.i.value, Nibbles.ToUsize(h);
      if i > SIZE || n > SIZE - i {
        return false, Some(SpriteOutOfMemory);
      }
      var sprite := memory.bytes[i..i + n];
      var s := Screen();
      s.DrawSprite(Widen(vx), Widen(vy), sprite);
      assert memory.Contents() == memory.bytes[..0xF00] + s.View();
      var overlap: bv8 :| true;
      registers := Set(registers, VF, overlap);
      ok, panic := Step();
    }

    /** FX07, FX0A (refuses: no key is ever ready), FX15, FX18. */
    method ExecuteTimers(ins: Instruction) returns (ok: bool, panic: Option<Abort>)
      requires Valid()
      requires ins.GetDelayTimer? || ins.AwaitKey? || ins.SetDelayTimer? || ins.SetSoundTimer?
      modifies this
      ensures Reports(TimersAndI(old(State()), ins), old(State()), ok, panic, State())
    {
      var r := registers;
      match ins {
      case GetDelayTimer(x) =>
        registers := Set(r, x, r.delayTimer);
      case AwaitKey(_) =>
        return false, None;
      case SetDelayTimer(x) =>
        registers := r.(delayTimer := Get(r, x));
      case SetSoundTimer(x) =>
        registers := r.(soundTimer := Get(r, x));
      }
      ok, panic := Step();
    }

    /** FX1E. */
    method ExecuteAddI(x: V) returns (ok: bool, panic: Option<Abort>)
      requires Valid()
      modifies this
      ensures Reports(TimersAndI(old(State()), AddIV(x)), old(State()), ok, panic, State())
    {
      var i, vx := registers.i.value, Get(registers, x);
      if i + Widen(vx) > 0xFFFF {
        return false, Some(Overflow);
      }
      registers := registers.(i := Addr(i + Widen(vx)));
      ok, panic := Step();
    }

    /** FX29. */
    method ExecuteSpriteI(x: V) returns (ok: bool, panic: Option<Abort>)
      requires Valid()
      modifies this
      ensures Reports(TimersAndI(old(State()), SetISprite(x)), old(State()), ok, panic, State())
    {
      var vx := Get(registers, x);
      registers := registers.(i := Addr(SYSTEM_INTERPRETER_FONTS_START.value + Widen(vx) * 5));
      ok, panic := Step();
    }

    /** FX33: the digits of Vx at I; false, and nothing written, when they do not fit. */
    method ExecuteBcd(x: V) returns (ok: bool, panic: Option<Abort>)
      requires Valid()
      modifies this, memory.bytes
      ensures Reports(MemoryOp(old(State()), SetIBcd(x)), old(State()), ok, panic, State())
    {
      var copied := memory.CopyFromSlice(registers.i, Bcd(Get(registers, x)));
      if !copied {
        return false, None;
      }
      ok, panic := Step();
    }

    /** FX55: V0 ..= Vx stored at I, I + 1, ... (each address masked; I + k overflowing 16 bits panics). */
    method ExecuteDump(x: V) returns (ok: bool, panic: Option<Abort>)
      requires Valid()
      modifies this, memory.bytes
      ensures Reports(MemoryOp(old(State()), Instruction.RegDump(x)), old(State()), ok, panic, State())
    {
      var i, count := registers.i.value, Nibbles.ToUsize(x.n) + 1;
      for k := 0 to count
        invariant i + k <= 0x1_0000
        invariant memory.Contents() == Dump(old(memory.Contents()), i, registers, k)
        invariant registers == old(registers)
      {
        if i + k > 0xFFFF {
          return false, Some(Overflow);
        }
        memory.Write(Addr(i + k), Get(registers, Nth(k)));
      }
      ok, panic := Step();
    }

    /** FX65: V0 ..= Vx loaded from I, I + 1, ... (each address masked; I + k overflowing 16 bits panics). */
    method ExecuteLoad(x: V) returns (ok: bool, panic: Option<Abort>)
      requires Valid()
      modifies this
      ensures Reports(MemoryOp(old(State()), Instruction.RegLoad(x)), old(State()), ok, panic, State())
    {
      var i, count := registers.i.value, Nibbles.ToUsize(x.n) + 1;
      for k := 0 to count
        invariant i + k <= 0x1_0000
        invariant registers == Load(old(registers), memory.Contents(), i, k)
      {
        if i + k > 0xFFFF {
          return false, Some(Overflow);
        }
        registers := Set(registers, Nth(k), memory.Read(Addr(i + k)));
      }
      ok, panic := Step();
    }

    /**
     * `try_step_many`: up to `steps` instructions, stopping at the first that
     * returns false. `count` is how many ran; `overlaps` records what each
     * step left in VF.
     */
    method TryStepMany(steps: nat) returns (count: nat, panic: Option<Abort>, ghost overlaps: seq<bv8>)
      requires Valid()
      modifies this, memory.bytes
      ensures count <= steps
      ensures panic.None? ==> |overlaps| == count && Run(old(State()), overlaps) == Ran(State())
      ensures panic.None? && count < steps ==> StepSingle(State(), 0) == Refused
      ensures panic.Some? ==> |overlaps| == count + 1 && Run(old(State()), overlaps) == Panicked(panic.value)
    {
      overlaps := [];
      for k := 0 to steps
        invariant |overlaps| == k && Run(old(State()), overlaps) == Ran(State())
      {
        ghost var before := State();
        var ok, p := TryStepSingle();
        ghost var next := overlaps + [registers.v[15]];
        assert next[..|next| - 1] == overlaps;
        if p.Some? {
          return k, p, next;
        }
        if !ok {
          assert State() == before;
          OverlapOnlyForRefusal(before, registers.v[15]);
          return k, None, overlaps;
        }
        overlaps := next;
      }
      return steps, None, overlaps;
    }
  }

  /** A refusal does not depend on the draw value. */
  lemma OverlapOnlyForRefusal(m: Machine, f: bv8)
    requires StepSingle(m, f) == Refused
    ensures StepSingle(m, 0) == Refused
  {
    if m.regs.pc.value != 0xFFFF {
      var ins := Decode(Peek16(m.mem, m.regs.pc));
      if !ins.DrawXYH? {
        OverlapOnlyForDraw(m, ins, f, 0);
      } else {
        DrawOutcome(m, ins.vx, ins.vy, ins.h, f);
        DrawOutcome(m, ins.vx, ins.vy, ins.h, 0);
      }
    }
  }
}
