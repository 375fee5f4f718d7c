/**
 * The per-thread context table of `tls.rs`: contexts are created into
 * slots of a growing table, destroyed slots go to a free list, and a freed
 * id is reused (oldest first) only once more than `IDS_BEFORE_REUSE` ids are
 * waiting. `update` runs every live context at 60 ticks a second. The
 * wall clock becomes an integer millisecond count passed to `Update`.
 */
module ThreadLocals {
  import opened Prelude
  import opened Addresses
  import opened RegisterFile
  import opened Memories
  import opened Machines
  import opened Contexts
  import Fonts

  /** Allocate this many ids before reusing a freed one. */
  const IDS_BEFORE_REUSE: nat := 1000
  /** Instructions per second. */
  const INSTRUCTION_HZ: nat := 500
  /** Clock ticks per second. */
  const CLOCK_HZ: nat := 60
  /** `INSTRUCTION_HZ / CLOCK_HZ`: instructions per tick. */
  const STEPS_PER_TICK: nat := INSTRUCTION_HZ / CLOCK_HZ
  /** `1000 / CLOCK_HZ`: milliseconds per tick. */
  const TICK_MS: nat := 1000 / CLOCK_HZ

  /** Why a `tls` entry point panics. */
  datatype Failure =
    | RomTooLarge           // `copy_from_io(..).expect(..)` in `create_context`
    | NoSuchContext         // `.expect(..)` in `destroy_context`
    | Aborted(why: Abort)   // a context panicked while `update` stepped it

  /** The machine `create_context` builds for `program`. */
  function Created(program: seq<bv8>): (m: Machine)
    requires PROGRAM_START_TYPICAL.value + |program| <= SIZE
    ensures m.regs == RegisterFile.Default().(pc := PROGRAM_START_TYPICAL)
    ensures m.mem[0x200..0x200 + |program|] == program
    ensures m.mem[0x050..0x0A0] == Fonts.Bytes()
    ensures forall k :: 0 <= k < SIZE && !(0x050 <= k < 0x0A0) && !(0x200 <= k < 0x200 + |program|) ==> m.mem[k] == 0
  {
    Machine(RegisterFile.Default().(pc := PROGRAM_START_TYPICAL),
            Splice(Splice(Zeros(), 0x200, program), 0x050, Fonts.Bytes()))
  }

  /**
   * One tick of `update` on one context: `try_step_many(8)`, where step k
   * leaves `overlaps[k]` in VF if it draws, then `step_clocks`. `None` when
   * `overlaps` is not a trace a tick can take: longer than 8, ended before
   * 8 without a refusal, or ending in a panic.
   */
  function TickWith(m: Machine, overlaps: seq<bv8>): Option<Machine> {
    if |overlaps| > STEPS_PER_TICK then None
    else match Run(m, overlaps)
      case Ran(p) =>
        if |overlaps| == STEPS_PER_TICK || StepSingle(p, 0) == Refused then Some(p.(regs := Tick(p.regs))) else None
      case _ => None
  }

  /** Ticks in a row, one trace each. */
  function TicksWith(m: Machine, traces: seq<seq<bv8>>): Option<Machine>
    decreases |traces|
  {
    if traces == [] then Some(m)
    else match TickWith(m, traces[0])
      case Some(n) => TicksWith(n, traces[1..])
      case None => None
  }

  class Tls {
    var contexts: seq<Option<Context>>
    var freeList: seq<nat>
    /** When the next tick is due, in milliseconds. */
    var nextStep: int

    ghost predicate Live(id: int)
      reads this
    {
      0 <= id < |contexts| && contexts[id].Some?
    }

    /** Every object a live context owns. */
    ghost function Objects(): set<object>
      reads this
    {
      (set id | 0 <= id < |contexts| && contexts[id].Some? :: contexts[id].value as object)
      + (set id | 0 <= id < |contexts| && contexts[id].Some? :: contexts[id].value.memory as object)
      + (set id | 0 <= id < |contexts| && contexts[id].Some? :: contexts[id].value.memory.bytes as object)
    }

    /**
     * Every id on the free list names an empty slot and appears once, and
     * live contexts share nothing.
     */
    ghost predicate Valid()
      reads this, Objects()
    {
      && (forall k :: 0 <= k < |freeList| ==> freeList[k] < |contexts| && contexts[freeList[k]].None?)
      && (forall k, l :: 0 <= k < l < |freeList| ==> freeList[k] != freeList[l])
      && (forall id :: Live(id) ==> contexts[id].value.Valid())
      && (forall id, id' :: Live(id) && Live(id') && id != id' ==>
            && contexts[id].value != contexts[id'].value
            && contexts[id].value.memory.bytes != contexts[id'].value.memory.bytes)
    }

    ghost function StateOf(id: int): Machine
      reads this, Objects()
      requires Valid() && Live(id)
    {
      contexts[id].value.State()
    }

    /** `Tls::default`: no contexts, the first tick due at `now`. */
    constructor (now: int)
      ensures Valid() && contexts == [] && freeList == [] && nextStep == now
    {
      contexts, freeList, nextStep := [], [], now;
    }

    /**
     * `create_context`: a context with PC at 0x200, `program` at 0x200 and the
     * font at 0x050, in a reused slot (the oldest freed) when more than 1000
     * ids are free, else in a new slot at the end. A program that does not
     * fit below 4096 panics.
     */
    method CreateContext(program: Source) returns (id: nat, failure: Option<Failure>)
      requires Valid() && ValidSource(program)
      modifies this
      ensures nextStep == old(nextStep)
      ensures failure.Some? <==> PROGRAM_START_TYPICAL.value + |program.data| > SIZE
      ensures failure.Some? ==> failure == Some(RomTooLarge) && contexts == old(contexts) && freeList == old(freeList)
      ensures failure.None? ==> Valid() && Live(id) && fresh(contexts[id].value) && StateOf(id) == Created(program.data)
      ensures failure.None? ==> fresh(contexts[id].value.memory) && fresh(contexts[id].value.memory.bytes)
      ensures failure.None? && |old(freeList)| > IDS_BEFORE_REUSE ==>
        id == old(freeList)[0] && freeList == old(freeList)[1..] && contexts == old(contexts)[id := contexts[id]]
      ensures failure.None? && |old(freeList)| <= IDS_BEFORE_REUSE ==>
        id == |old(contexts)| && freeList == old(freeList) && contexts == old(contexts) + [contexts[id]]
    {
      var ctx;
      ctx, failure := Build(program);
      if failure.Some? {
        return 0, failure;
      }
      if |freeList| > IDS_BEFORE_REUSE {
        id := freeList[0];
        freeList := freeList[1..];
        contexts := contexts[id := Some(ctx)];
      } else {
        id := |contexts|;
        contexts := contexts + [Some(ctx)];
      }
    }

    /** `destroy_context`: empty slot `id` and queue the id for reuse; an id that is not live panics. */
    method DestroyContext(id: nat) returns (failure: Option<Failure>)
      requires Valid()
      modifies this
      ensures nextStep == old(nextStep)
      ensures failure.Some? <==> !old(Live(id))
      ensures failure.Some? ==> failure == Some(NoSuchContext) && contexts == old(contexts) && freeList == old(freeList)
      ensures failure.None? ==> Valid() && contexts == old(contexts)[id := None] && freeList == old(freeList) + [id]
    {
      if id >= |contexts| || contexts[id].None? {
        return Some(NoSuchContext);
      }
      contexts := contexts[id := None];
      freeList := freeList + [id];
      failure := None;
    }

    /** The context `create_context` builds, before it goes into the table. */
    static method Build(program: Source) returns (ctx: Context, failure: Option<Failure>)
      requires ValidSource(program)
      ensures failure.Some? <==> PROGRAM_START_TYPICAL.value + |program.data| > SIZE
      ensures failure.Some? ==> failure == Some(RomTooLarge)
      ensures failure.None? ==> fresh(ctx) && fresh(ctx.memory) && fresh(ctx.memory.bytes)
      ensures failure.None? ==> ctx.Valid() && ctx.State() == Created(program.data)
    {
      ctx := new Context();
      ctx.registers := ctx.registers.(pc := PROGRAM_START_TYPICAL);
      var loaded := ctx.memory.CopyFromIo(ctx.registers.pc, program);
      if !loaded {
        return ctx, Some(RomTooLarge);
      }
      var fontLoaded := ctx.memory.CopyFromSlice(TYPICAL_FONTS_START, Fonts.Bytes());
      assert fontLoaded;  // the font's `expect` never fires
      failure := None;
    }

    /** The body of one `update` tick: each live context runs `try_step_many(8)`, then `step_clocks`. */
    method StepAll() returns (failure: Option<Failure>, ghost traces: seq<seq<bv8>>)
      requires Valid()
      modifies Objects()
      ensures failure.None? ==> Valid() && |traces| == |contexts|
      ensures failure.None? ==> forall id :: Live(id) ==> TickWith(old(StateOf(id)), traces[id]) == Some(StateOf(id))
    {
      traces := [];
      for j := 0 to |contexts|
        invariant Valid() && |traces| == j
        invariant forall id :: 0 <= id < j && Live(id) ==> TickWith(old(StateOf(id)), traces[id]) == Some(StateOf(id))
        invariant forall id :: j <= id && Live(id) ==> StateOf(id) == old(StateOf(id))
      {
        if contexts[j].Some? {
          var panic, overlaps := TickContext(contexts[j].value);
          if panic.Some? {
            return Some(Aborted(panic.value)), traces;
          }
          traces := traces + [overlaps];
        } else {
          traces := traces + [[]];
        }
      }
      failure := None;
    }

    /**
     * `update` at time `now`: one tick for every 16 ms from `nextStep` up to
     * `now`, each a `StepAll`, with `nextStep` moved on 16 ms per tick.
     */
    method Update(now: int) returns (ticks: nat, failure: Option<Failure>, ghost traces: seq<seq<seq<bv8>>>)
      requires Valid()
      modifies this, Objects()
      ensures contexts == old(contexts) && freeList == old(freeList)
      ensures failure.None? ==> Valid() && nextStep == old(nextStep) + TICK_MS * ticks
      ensures failure.None? ==> ticks == if now < old(nextStep) then 0 else (now - old(nextStep)) / TICK_MS + 1
      ensures failure.None? ==> |traces| == |contexts|
      ensures failure.None? ==>
        forall id :: Live(id) ==> |traces[id]| == ticks && TicksWith(old(StateOf(id)), traces[id]) == Some(StateOf(id))
    {
      ticks := 0;
      traces := seq(|contexts|, _ => []);
      while now >= nextStep
        invariant contexts == old(contexts) && freeList == old(freeList) && Valid()
        invariant nextStep == old(nextStep) + TICK_MS * ticks
        invariant ticks > 0 ==> nextStep - TICK_MS <= now
        invariant |traces| == |contexts|
        invariant forall id :: Live(id) ==> |traces[id]| == ticks && TicksWith(old(StateOf(id)), traces[id]) == Some(StateOf(id))
        decreases now - nextStep
      {
        label before:
        var f;
        ghost var tick;
        f, tick := StepAll();
        if f.Some? {
          return ticks, f, traces;
        }
        forall id | Live(id)
          ensures TicksWith(old(StateOf(id)), traces[id] + [tick[id]]) == Some(StateOf(id))
        {
          TicksWithSnoc(old(StateOf(id)), traces[id], tick[id]);
        }
        traces := seq(|traces|, id requires 0 <= id < |traces| => traces[id] + [tick[id]]);
        nextStep := nextStep + TICK_MS;
        ticks := ticks + 1;
      }
      TickCount(now, old(nextStep), ticks);
      failure := None;
    }
  }

  /** One context's share of an `update` tick: `try_step_many(8)`, then `step_clocks`. */
  method TickContext(ctx: Context) returns (panic: Option<Abort>, ghost overlaps: seq<bv8>)
    requires ctx.Valid()
    modifies ctx, ctx.memory.bytes
    ensures ctx.Valid()
    ensures panic.None? ==> TickWith(old(ctx.State()), overlaps) == Some(ctx.State())
  {
    var _, p, trace := ctx.TryStepMany(STEPS_PER_TICK);
    panic, overlaps := p, trace;
    if panic.Some? {
      return;
    }
    ctx.StepClocks();
  }

  /** Appending a tick to a trace runs it from where the trace left off. */
  lemma {:induction false} TicksWithSnoc(m: Machine, traces: seq<seq<bv8>>, t: seq<bv8>)
    ensures TicksWith(m, traces + [t]) == match TicksWith(m, traces) case Some(n) => TickWith(n, t) case None => None
    decreases |traces|
  {
    if traces == [] {
      assert [] + [t] == [t];
      assert [t][1..] == [];
    } else {
      assert (traces + [t])[0] == traces[0];
      assert (traces + [t])[1..] == traces[1..] + [t];
      match TickWith(m, traces[0])
      case Some(n) => TicksWithSnoc(n, traces[1..], t);
      case None =>
    }
  }

  /** The number of 16 ms ticks from `start` up to and including `now`. */
  lemma TickCount(now: int, start: int, ticks: nat)
    requires start + TICK_MS * ticks > now
    requires ticks > 0 ==> start + TICK_MS * ticks - TICK_MS <= now
    ensures ticks == (if now < start then 0 else (now - start) / TICK_MS + 1)
  {
    if ticks > 0 {
      assert TICK_MS * (ticks - 1) <= now - start < TICK_MS * ticks;
    }
  }
}
