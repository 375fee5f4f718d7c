/**
 * The pieces of Rust's `core::fmt` that the interpreter's `Display`/`Debug`
 * impls use: `{:X}`/`{:x}` with an optional zero-padded width and `{}` on
 * unsigned integers. Each formatter has a parser as its inverse.
 */
module Fmt {

  predicate IsHexDigit(c: char, upper: bool) {
    ('0' <= c <= '9') || (if upper then 'A' <= c <= 'F' else 'a' <= c <= 'f')
  }

  /** The numeric value of a decimal or hexadecimal digit (either case). */
  function DigitValue(c: char): nat {
    if '0' <= c <= '9' then c as int - '0' as int
    else if 'A' <= c <= 'F' then c as int - 'A' as int + 10
    else if 'a' <= c <= 'f' then c as int - 'a' as int + 10
    else 0
  }

  /** One hexadecimal digit, upper or lower case as `{:X}` or `{:x}` writes it. */
  function Digit(d: nat, upper: bool): (c: char)
    requires d < 16
    ensures IsHexDigit(c, upper) && DigitValue(c) == d
    ensures d < 10 <==> '0' <= c <= '9'
  {
    if d < 10 then ('0' as int + d) as char
    else if upper then ('A' as int + d - 10) as char
    else ('a' as int + d - 10) as char
  }

  /** `{:0wX}` (upper) or `{:0wx}` (lower): the hex digits of `n`, zero-padded to at least `width`. */
  function Hex(n: nat, width: nat, upper: bool): (s: string)
    decreases n + width
    ensures 1 <= |s| && width <= |s|
    ensures forall k :: 0 <= k < |s| ==> IsHexDigit(s[k], upper)
    ensures width < |s| && 1 < |s| ==> s[0] != '0'
  {
    if n < 16 && width <= 1 then [Digit(n, upper)]
    else Hex(n / 16, if width == 0 then 0 else width - 1, upper) + [Digit(n % 16, upper)]
  }

  /** `{}` on an unsigned integer: its decimal digits, no padding. */
  function Dec(n: nat): (s: string)
    ensures 1 <= |s|
    ensures forall k :: 0 <= k < |s| ==> '0' <= s[k] <= '9'
    ensures 1 < |s| ==> s[0] != '0'
  {
    if n < 10 then [Digit(n, true)] else Dec(n / 10) + [Digit(n % 10, true)]
  }

  /** Reads a digit string in the given base, most significant digit first. */
  function Parse(s: string, base: nat): nat {
    if s == [] then 0 else Parse(s[..|s| - 1], base) * base + DigitValue(s[|s| - 1])
  }

  function Pow16(k: nat): (p: nat)
    ensures 1 <= p
  {
    if k == 0 then 1 else 16 * Pow16(k - 1)
  }

  lemma ParseSnoc(s: string, c: char, base: nat)
    ensures Parse(s + [c], base) == Parse(s, base) * base + DigitValue(c)
  {
    assert (s + [c])[..|s + [c]| - 1] == s;
  }

  /** A four-digit number printed with width 4: its digits, most significant first. */
  lemma HexFour(n: nat, upper: bool)
    requires 0x1000 <= n < 0x10000
    ensures Hex(n, 4, upper) == [Digit(n / 0x1000, upper), Digit(n / 0x100 % 0x10, upper), Digit(n / 0x10 % 0x10, upper), Digit(n % 0x10, upper)]
  {
    var a, b, c := n / 0x10, n / 0x100, n / 0x1000;
    assert a / 0x10 == b && b / 0x10 == c;
    assert Hex(b, 2, upper) == [Digit(c, upper)] + [Digit(b % 0x10, upper)];
    assert Hex(a, 3, upper) == Hex(b, 2, upper) + [Digit(a % 0x10, upper)];
  }

  /** Parsing what `Hex` printed gives the number back. */
  lemma {:induction false} HexRoundTrip(n: nat, width: nat, upper: bool)
    ensures Parse(Hex(n, width, upper), 16) == n
    decreases n + width
  {
    if n < 16 && width <= 1 {
      assert Hex(n, width, upper) == [] + [Digit(n, upper)];
      ParseSnoc([], Digit(n, upper), 16);
    } else {
      var w' := if width == 0 then 0 else width - 1;
      HexRoundTrip(n / 16, w', upper);
      ParseSnoc(Hex(n / 16, w', upper), Digit(n % 16, upper), 16);
    }
  }

  /** Parsing what `Dec` printed gives the number back. */
  lemma {:induction false} DecRoundTrip(n: nat)
    ensures Parse(Dec(n), 10) == n
  {
    if n < 10 {
      assert Dec(n) == [] + [Digit(n, true)];
      ParseSnoc([], Digit(n, true), 10);
    } else {
      DecRoundTrip(n / 10);
      ParseSnoc(Dec(n / 10), Digit(n % 10, true), 10);
    }
  }

  /** A number below 16^width prints in exactly `width` hex digits. */
  lemma {:induction false} HexWidth(n: nat, width: nat, upper: bool)
    requires 1 <= width && n < Pow16(width)
    ensures |Hex(n, width, upper)| == width
    decreases width
  {
    if !(n < 16 && width <= 1) {
      HexWidth(n / 16, width - 1, upper);
    }
  }

  /** A number of at least 16^width needs more than `width` digits. */
  lemma {:induction false} HexAtLeast(n: nat, width: nat, upper: bool)
    requires Pow16(width) <= n
    ensures width < |Hex(n, width, upper)|
    decreases width
  {
    if width > 0 {
      HexAtLeast(n / 16, width - 1, upper);
    }
  }
}
