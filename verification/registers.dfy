/** `Registers`: V0 ..= VF, I, PC, the call stack and the two timers. */
module RegisterFile {
  import opened Nibbles
  import opened RegisterIndex
  import opened Addresses

  type Bank = s: seq<bv8> | |s| == 16 witness seq(16, _ => 0)

  /**
   * A plain record, copied by value. `stack` is a `Vec` whose end is the
   * top; `sound_playing` is carried along but nothing in the core reads it.
   */
  datatype Registers = Registers(
    v: Bank,
    i: Addr,
    pc: Addr,
    stack: seq<Addr>,
    delayTimer: bv8,
    soundTimer: bv8,
    soundPlaying: bool)

  /** `Default`: every register zero, the stack empty. */
  function Default(): (r: Registers)
    ensures forall x: V :: Get(r, x) == 0
    ensures r.i == Addr(0) && r.pc == Addr(0) && r.stack == []
    ensures r.delayTimer == 0 && r.soundTimer == 0 && !r.soundPlaying
  {
    Registers(seq(16, _ => 0), Addr(0), Addr(0), [], 0, 0, false)
  }

  /** `Index<V>`: the register a `V` names. */
  function Get(r: Registers, x: V): bv8 {
    ArrayRef(x.n, r.v)
  }

  /** `IndexMut<V>`, as the registers after a store through the returned slot. */
  function Set(r: Registers, x: V, b: bv8): (r': Registers)
    ensures Get(r', x) == b
    ensures forall y: V :: y != x ==> Get(r', y) == Get(r, y)
    ensures r' == r.(v := r'.v)
  {
    r.(v := ArrayMut(x.n, r.v, b))
  }

  /** A register is element `x` of the bank, so `V0` is `v[0]` and `VF` is `v[15]`. */
  lemma GetIsElement(r: Registers, x: V)
    ensures Get(r, x) == r.v[ToU8(x.n)]
    ensures Get(r, V0) == r.v[0] && Get(r, VF) == r.v[15]
  {
  }

  /** Two stores to the same register: the second wins. */
  lemma SetSet(r: Registers, x: V, a: bv8, b: bv8)
    ensures Set(Set(r, x, a), x, b) == Set(r, x, b)
  {
  }

  /** Storing what a register already holds changes nothing. */
  lemma SetGet(r: Registers, x: V)
    ensures Set(r, x, Get(r, x)) == r
  {
  }

  /** Stores to two different registers commute. */
  lemma SetCommutes(r: Registers, x: V, y: V, a: bv8, b: bv8)
    requires x != y
    ensures Set(Set(r, x, a), y, b) == Set(Set(r, y, b), x, a)
  {
    ToU8Injective();
  }
}
