/**
 * `Memory4K`: 4 KiB of memory addressed by the low 12 bits of an `Addr`, with
 * bounded bulk copies and a screen view over its last 256 bytes (0xF00 ..= 0xFFF).
 *
 * The spec functions (`Peek`, `Poke`, `CopySlice`, `LoadIo`) work on the
 * 4096 bytes as a sequence; the class holds them in an array and its methods
 * are proved against those functions.
 */
module Memories {
  import opened Prelude
  import opened Addresses
  import Screens

  const SIZE: nat := 0x1000

  type Bytes4K = s: seq<bv8> | |s| == SIZE witness Zeros()

  function Zeros(): (s: seq<bv8>)
    ensures |s| == SIZE && forall k :: 0 <= k < SIZE ==> s[k] == 0
  {
    seq(SIZE, _ => 0)
  }

  /** The cell an address selects: `addr & 0xFFF`. */
  function Cell(a: Addr): (k: nat)
    ensures k < SIZE
  {
    a.value % 0x1000
  }

  /** `read`. */
  function Peek(m: Bytes4K, a: Addr): bv8 {
    m[Cell(a)]
  }

  /** `read16`: big-endian, the second byte from `Addr(a + 1)`; a + 1 must fit in 16 bits. */
  function Peek16(m: Bytes4K, a: Addr): U16
    requires a.value < 0xFFFF
  {
    Peek(m, a) as int * 0x100 + Peek(m, Addr(a.value + 1)) as int
  }

  /** `write`. */
  function Poke(m: Bytes4K, a: Addr, v: bv8): Bytes4K {
    m[Cell(a) := v]
  }

  /** `src` laid over `m` from cell `at`, which the caller has checked fits. */
  function Splice(m: Bytes4K, at: nat, src: seq<bv8>): (r: Bytes4K)
    requires at + |src| <= SIZE
    ensures forall k :: 0 <= k < SIZE ==> r[k] == if at <= k < at + |src| then src[k - at] else m[k]
  {
    m[..at] + src + m[at + |src|..]
  }

  /** `copy_from_slice`: `None` (an error) unless the whole of `src` fits below 4096, with no wrap-around. */
  function CopySlice(m: Bytes4K, a: Addr, src: seq<bv8>): Option<Bytes4K> {
    if a.value + |src| <= SIZE then Some(Splice(m, a.value, src)) else None
  }

  /** The screen view: the last 256 bytes. */
  function ScreenOf(m: Bytes4K): Screens.Pixels {
    m[SYSTEM_DISPLAY_START.value..]
  }

  /**
   * The `io::Read` source `copy_from_io` pulls from, as an in-memory stream:
   * each `read` returns as many of the remaining bytes as fit in the buffer,
   * at most `chunk` of them (a short read); 0 means end of stream.
   */
  datatype Source = Source(data: seq<bv8>, chunk: nat)

  predicate ValidSource(src: Source) { src.chunk >= 1 }

  /** What one `read(buf)` with `room` bytes of buffer returns, from position `pos`. */
  function ReadCount(src: Source, pos: nat, room: nat): (n: nat)
    requires ValidSource(src) && pos <= |src.data|
    ensures n <= room && pos + n <= |src.data|
    ensures n == 0 <==> room == 0 || pos == |src.data|
  {
    var left := |src.data| - pos;
    if left <= room && left <= src.chunk then left
    else if room <= src.chunk then room
    else src.chunk
  }

  /**
   * `copy_from_io`, one loop iteration per call: true (`Ok`) once the source
   * is drained, false (an error) if memory is full while source bytes
   * remain or `addr` starts past the end. Bytes copied before an error stay.
   */
  function LoadIo(m: Bytes4K, addr: nat, src: Source, pos: nat): (bool, Bytes4K)
    requires ValidSource(src) && pos <= |src.data|
    decreases |src.data| - pos
  {
    if addr > SIZE then (false, m)
    else if addr == SIZE then (pos == |src.data|, m)
    else
      var n := ReadCount(src, pos, SIZE - addr);
      if n == 0 then (true, m)
      else LoadIo(Splice(m, addr, src.data[pos..pos + n]), addr + n, src, pos + n)
  }

  /**
   * What `copy_from_io` leaves, in closed form: success with all of `rest` at
   * `addr` when it fits, else failure with memory filled from `addr` to the end.
   */
  function Loaded(m: Bytes4K, addr: nat, rest: seq<bv8>): (bool, Bytes4K) {
    if addr > SIZE then (false, m)
    else if addr + |rest| <= SIZE then (true, Splice(m, addr, rest))
    else (false, Splice(m, addr, rest[..SIZE - addr]))
  }

  // ---- Properties -------------------------------------------------------

  /** `write` sets exactly the masked cell; `read` sees it there and nothing else moves. */
  lemma ReadAfterWrite(m: Bytes4K, a: Addr, v: bv8, b: Addr)
    ensures Peek(Poke(m, a, v), b) == if Cell(b) == Cell(a) then v else Peek(m, b)
    ensures forall k :: 0 <= k < SIZE && k != Cell(a) ==> Poke(m, a, v)[k] == m[k]
  {
  }

  /**
   * Addresses wrap at 4 KiB: `read16` at 0xFFF takes its low byte from 0x000,
   * and any two addresses that agree modulo 4096 read the same word.
   */
  lemma Read16Wraps(m: Bytes4K)
    ensures Peek16(m, Addr(0xFFF)) == m[0xFFF] as int * 0x100 + m[0x000] as int
    ensures forall a: nat, b: nat :: a < 0xFFFF && b < 0xFFFF && a % SIZE == b % SIZE ==> Peek16(m, Addr(a)) == Peek16(m, Addr(b))
  {
  }

  /** `copy_from_slice` succeeds exactly when `src` fits; then it holds `src` at `a` and nothing else changed. */
  lemma CopySliceSpec(m: Bytes4K, a: Addr, src: seq<bv8>)
    ensures CopySlice(m, a, src).Some? <==> a.value + |src| <= SIZE
    ensures CopySlice(m, a, src).Some? ==>
      (forall k :: 0 <= k < |src| ==> Peek(CopySlice(m, a, src).value, Addr(a.value + k)) == src[k])
      && (forall k :: 0 <= k < SIZE && !(a.value <= k < a.value + |src|) ==> CopySlice(m, a, src).value[k] == m[k])
  {
  }

  /** Splicing in two adjacent pieces is splicing in their concatenation. */
  lemma SpliceTwice(m: Bytes4K, at: nat, u: seq<bv8>, w: seq<bv8>)
    requires at + |u| + |w| <= SIZE
    ensures Splice(Splice(m, at, u), at + |u|, w) == Splice(m, at, u + w)
  {
    var l, r := Splice(Splice(m, at, u), at + |u|, w), Splice(m, at, u + w);
    forall k | 0 <= k < SIZE ensures l[k] == r[k] {
      if at <= k < at + |u| {
        assert (u + w)[k - at] == u[k - at];
      } else if at + |u| <= k < at + |u| + |w| {
        assert (u + w)[k - at] == w[k - at - |u|];
      }
    }
  }

  /** Bytes copied by one read of `copy_from_io`: the rest continues after them to the same end. */
  lemma LoadedStep(m: Bytes4K, addr: nat, rest: seq<bv8>, n: nat)
    requires 0 < n <= |rest| && addr + n <= SIZE
    ensures Loaded(Splice(m, addr, rest[..n]), addr + n, rest[n..]) == Loaded(m, addr, rest)
  {
    if addr + |rest| <= SIZE {
      SpliceTwice(m, addr, rest[..n], rest[n..]);
      assert rest[..n] + rest[n..] == rest;
    } else {
      SpliceTwice(m, addr, rest[..n], rest[n..][..SIZE - addr - n]);
      assert rest[..n] + rest[n..][..SIZE - addr - n] == rest[..SIZE - addr];
    }
  }

  /**
   * `copy_from_io`, whatever the read sizes: it succeeds exactly when the rest
   * of the source fits between `addr` and the end of memory, and then holds
   * it there; otherwise it fails having filled memory up to the end.
   */
  lemma {:induction false} LoadIoSpec(m: Bytes4K, addr: nat, src: Source, pos: nat)
    requires ValidSource(src) && pos <= |src.data|
    ensures LoadIo(m, addr, src, pos) == Loaded(m, addr, src.data[pos..])
    decreases |src.data| - pos
  {
    if addr == SIZE {
      assert Splice(m, addr, []) == m;
    } else if addr < SIZE {
      var n := ReadCount(src, pos, SIZE - addr);
      if n == 0 {
        assert Splice(m, addr, []) == m;
      } else {
        var m' := Splice(m, addr, src.data[pos..pos + n]);
        LoadIoSpec(m', addr + n, src, pos + n);
        LoadedStep(m, addr, src.data[pos..], n);
        assert src.data[pos..][..n] == src.data[pos..pos + n] && src.data[pos..][n..] == src.data[pos + n..];
      }
    }
  }

  /** The screen view is the memory at 0xF00 ..= 0xFFF: a write there is a write to the screen. */
  lemma ScreenIsMemory(m: Bytes4K, b: nat, v: bv8)
    requires b < 256
    ensures ScreenOf(m)[b] == Peek(m, Addr(0xF00 + b))
    ensures ScreenOf(Poke(m, Addr(0xF00 + b), v)) == ScreenOf(m)[b := v]
  {
    assert ScreenOf(Poke(m, Addr(0xF00 + b), v)) == ScreenOf(m)[b := v];
  }

  // ---- The memory object ------------------------------------------------

  class Memory4K {
    const bytes: array<bv8>

    predicate Valid()
      reads this
    {
      bytes.Length == SIZE
    }

    function Contents(): Bytes4K
      reads this, bytes
      requires Valid()
    {
      bytes[..]
    }

    /** `new`: 4096 zero bytes. */
    constructor ()
      ensures Valid() && fresh(bytes) && Contents() == Zeros()
    {
      bytes := new bv8[SIZE](_ => 0);
    }

    /** `read`: never fails, the address is masked to 12 bits. */
    function Read(a: Addr): (r: bv8)
      reads this, bytes
      requires Valid()
      ensures r == Peek(Contents(), a)
    {
      bytes[a.value % 0x1000]
    }

    /** `read16`. */
    function Read16(a: Addr): (r: U16)
      reads this, bytes
      requires Valid() && a.value < 0xFFFF
      ensures r == Peek16(Contents(), a)
    {
      Read(a) as int * 0x100 + Read(Addr(a.value + 1)) as int
    }

    /** `write`. */
    method Write(a: Addr, value: bv8)
      requires Valid()
      modifies bytes
      ensures Contents() == Poke(old(Contents()), a, value)
    {
      bytes[a.value % 0x1000] := value;
    }

    /** `clear`: zero every byte. */
    method Clear()
      requires Valid()
      modifies bytes
      ensures Contents() == Zeros()
    {
      for k := 0 to SIZE
        invariant forall j :: 0 <= j < k ==> bytes[j] == 0
      {
        bytes[k] := 0;
      }
    }

    /** `copy_from_slice`: false (an error), and nothing written, unless `src` fits. */
    method CopyFromSlice(a: Addr, src: seq<bv8>) returns (ok: bool)
      requires Valid()
      modifies bytes
      ensures ok == CopySlice(old(Contents()), a, src).Some?
      ensures Contents() == if ok then CopySlice(old(Contents()), a, src).value else old(Contents())
    {
      if a.value > SIZE || |src| > SIZE - a.value {
        return false;
      }
      Fill(a.value, src);
      return true;
    }

    /** Copies `src` into memory from `at` on: the copy both `copy_from_*` end in. */
    method Fill(at: nat, src: seq<bv8>)
      requires Valid() && at + |src| <= SIZE
      modifies bytes
      ensures Contents() == Splice(old(Contents()), at, src)
    {
      for k := 0 to |src|
        invariant Contents() == Splice(old(Contents()), at, src[..k])
      {
        bytes[at + k] := src[k];
        assert src[..k + 1] == src[..k] + [src[k]];
      }
      assert src[..|src|] == src;
    }

    /** `copy_from_io`: the loop that reads `src` into memory from `a` until it is drained or memory is full. */
    method CopyFromIo(a: Addr, src: Source) returns (ok: bool)
      requires Valid() && ValidSource(src)
      modifies bytes
      ensures (ok, Contents()) == Loaded(old(Contents()), a.value, src.data)
    {
      var addr: nat, pos: nat := a.value, 0;
      ghost var result := Loaded(old(Contents()), a.value, src.data);
      ghost var m := Contents();
      assert src.data[0..] == src.data;
      while true
        invariant pos <= |src.data| && m == Contents()
        invariant Loaded(m, addr, src.data[pos..]) == result
        decreases |src.data| - pos
      {
        if addr > SIZE {
          return false;
        }
        if addr == SIZE {
          var n := ReadCount(src, pos, 1);
          assert Splice(m, addr, []) == m;
          return n == 0;
        }
        var n := ReadCount(src, pos, SIZE - addr);
        if n == 0 {
          assert Splice(m, addr, []) == m;
          return true;
        }
        var chunk := src.data[pos..pos + n];
        LoadedStep(m, addr, src.data[pos..], n);
        assert src.data[pos..][..n] == chunk && src.data[pos..][n..] == src.data[pos + n..];
        Fill(addr, chunk);
        m := Splice(m, addr, chunk);
        addr, pos := addr + n, pos + n;
      }
    }

    /** `screen_monochrome_64x32_mut`: a screen over the last 256 bytes of this memory. */
    method Screen() returns (s: Screens.ScreenMonochrome64x32)
      requires Valid()
      ensures fresh(s) && s.Valid() && s.buf == bytes && s.base == SYSTEM_DISPLAY_START.value
      ensures s.View() == ScreenOf(Contents())
    {
      s := new Screens.ScreenMonochrome64x32.Over(bytes, SYSTEM_DISPLAY_START.value);
    }
  }
}
