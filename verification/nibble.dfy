/** `Nibble`: a 4-bit value, an exhaustive 16-variant type, used for opcode fields and register indices. */
module Nibbles {
  import opened Prelude
  import Fmt

  datatype Nibble = N0 | N1 | N2 | N3 | N4 | N5 | N6 | N7 | N8 | N9 | NA | NB | NC | ND | NE | NF

  /** `to_u8`: the nibble's value. */
  function ToU8(n: Nibble): (r: nat)
    ensures r < 16
  {
    match n
    case N0 => 0  case N1 => 1  case N2 => 2  case N3 => 3
    case N4 => 4  case N5 => 5  case N6 => 6  case N7 => 7
    case N8 => 8  case N9 => 9  case NA => 10 case NB => 11
    case NC => 12 case ND => 13 case NE => 14 case NF => 15
  }

  /** `to_u16`: the same value as `to_u8`. */
  function ToU16(n: Nibble): (r: U16)
    ensures r == ToU8(n) && r < 16
  {
    ToU8(n)
  }

  /** `to_usize`: the same value as `to_u8`. */
  function ToUsize(n: Nibble): (r: nat)
    ensures r == ToU8(n) && r < 16
  {
    ToU8(n)
  }

  /** `truncate8`: the nibble holding the low four bits of `v`. */
  function Truncate8(v: nat): (r: Nibble)
    requires v < 0x100
    ensures ToU8(r) == v % 16
  {
    match v % 16
    case 0 => N0  case 1 => N1  case 2 => N2  case 3 => N3
    case 4 => N4  case 5 => N5  case 6 => N6  case 7 => N7
    case 8 => N8  case 9 => N9  case 10 => NA case 11 => NB
    case 12 => NC case 13 => ND case 14 => NE
    case _ => NF  // v % 16 == 15: the enumeration leaves no other value
  }

  /** `truncate16`: `truncate8` of the low byte, so again the low four bits. */
  function Truncate16(v: U16): (r: Nibble)
    ensures ToU8(r) == v % 16
  {
    Truncate8(v % 0x100)
  }

  /** `literal`: the nibble with exactly the value `v`; the source asserts `v < 16`. */
  function Literal(v: nat): (r: Nibble)
    requires v < 16
    ensures ToU8(r) == v
  {
    Truncate8(v)
  }

  /** `TryFrom<usize | u64 | u32 | u16 | u8>`: succeeds exactly for values below 16. */
  function TryFrom(v: nat): (r: Option<Nibble>)
    ensures r.Some? <==> v < 16
    ensures r.Some? ==> ToU8(r.value) == v
  {
    if v < 16 then Some(Truncate8(v)) else None
  }

  /** `iter`: the sixteen nibbles in increasing order. */
  function Iter(): (r: seq<Nibble>)
    ensures |r| == 16
    ensures forall k :: 0 <= k < 16 ==> ToU8(r[k]) == k
  {
    seq(16, i requires 0 <= i < 16 => Truncate8(i))
  }

  /** `array_ref`: element `to_usize()` of a 16-element array. */
  function ArrayRef<T>(n: Nibble, a: seq<T>): T
    requires |a| == 16
  {
    a[ToUsize(n)]
  }

  /** `array_mut`, as the array after a store through the returned slot. */
  function ArrayMut<T>(n: Nibble, a: seq<T>, x: T): (r: seq<T>)
    requires |a| == 16
    ensures |r| == 16
    ensures ArrayRef(n, r) == x
    ensures forall m: Nibble :: m != n ==> ArrayRef(m, r) == ArrayRef(m, a)
  {
    ToU8Injective();
    a[ToUsize(n) := x]
  }

  /** `{:X}` on a nibble: one upper-case hex digit. */
  function UpperHex(n: Nibble): (s: string)
    ensures |s| == 1 && Fmt.IsHexDigit(s[0], true) && Fmt.DigitValue(s[0]) == ToU8(n)
  {
    Fmt.Hex(ToU8(n), 0, true)
  }

  /** `{}` on a nibble: its value in decimal, one digit or two with no leading zero. */
  function Display(n: Nibble): (s: string)
    ensures 1 <= |s| <= 2 && Fmt.Parse(s, 10) == ToU8(n)
    ensures |s| == 2 <==> 10 <= ToU8(n)
    ensures forall k :: 0 <= k < |s| ==> '0' <= s[k] <= '9'
  {
    Fmt.DecRoundTrip(ToU8(n));
    Fmt.Dec(ToU8(n))
  }

  /** Distinct nibbles have distinct values. */
  lemma ToU8Injective()
    ensures forall m: Nibble, n: Nibble :: ToU8(m) == ToU8(n) ==> m == n
  {
    forall m: Nibble, n: Nibble | ToU8(m) == ToU8(n) ensures m == n {
      RoundTrip(m);
      RoundTrip(n);
    }
  }

  /** Truncating a nibble's own value gives the nibble back. */
  lemma RoundTrip(n: Nibble)
    ensures Truncate8(ToU8(n)) == n
  {
    match n
    case N0 => case N1 => case N2 => case N3 =>
    case N4 => case N5 => case N6 => case N7 =>
    case N8 => case N9 => case NA => case NB =>
    case NC => case ND => case NE => case NF =>
  }

  /** `iter` yields N0 ..= NF, each exactly once. */
  lemma IterIsEnumeration()
    ensures Iter() == [N0, N1, N2, N3, N4, N5, N6, N7, N8, N9, NA, NB, NC, ND, NE, NF]
  {
    var it := Iter();
    ToU8Injective();
    assert it[0] == N0 && it[1] == N1 && it[2] == N2 && it[3] == N3;
    assert it[4] == N4 && it[5] == N5 && it[6] == N6 && it[7] == N7;
    assert it[8] == N8 && it[9] == N9 && it[10] == NA && it[11] == NB;
    assert it[12] == NC && it[13] == ND && it[14] == NE && it[15] == NF;
  }
}
