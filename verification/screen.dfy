/**
 * `ScreenMonochrome64x32`: a 64x32 one-bit display held in 256 bytes, row y
 * in bytes 8y .. 8y+7. A row is read as a big-endian 64-bit word and pixel x
 * is bit x of that word; because the word is converted from and to big-endian
 * explicitly, that is bit x % 8 of byte 8y + 7 - x / 8 on every host.
 *
 * The spec functions work on the 256 bytes as a sequence; the class works
 * in place on an array, at an offset, so that it can also be a view into
 * the last 256 bytes of a `Memory4K`.
 */
module Screens {
  import opened Prelude

  const WIDTH: nat := 64
  const HEIGHT: nat := 32
  const SIZE: nat := 256

  type Pixels = s: seq<bv8> | |s| == SIZE witness Blank()

  function Blank(): (s: seq<bv8>)
    ensures |s| == SIZE && forall k :: 0 <= k < SIZE ==> s[k] == 0
  {
    seq(SIZE, _ => 0)
  }

  predicate OnGrid(x: nat, y: nat) { x < WIDTH && y < HEIGHT }

  /** The byte that holds pixel (x, y). */
  function ByteIndex(x: nat, y: nat): (b: nat)
    requires OnGrid(x, y)
    ensures b < SIZE && b / 8 == y && b % 8 == 7 - x / 8
  {
    8 * y + 7 - x / 8
  }

  /** Bit j of a byte, as a mask. */
  function Bit(j: nat): (m: bv8)
    requires j < 8
    ensures m == 1 << j
  {
    match j
    case 0 => 0x01
    case 1 => 0x02
    case 2 => 0x04
    case 3 => 0x08
    case 4 => 0x10
    case 5 => 0x20
    case 6 => 0x40
    case _ => 0x80
  }

  /** The bit of that byte: `1 << x` of the big-endian row word. */
  function Mask(x: nat): bv8 {
    Bit(x % 8)
  }

  function Pixel(s: Pixels, x: nat, y: nat): bool
    requires OnGrid(x, y)
  {
    s[ByteIndex(x, y)] & Mask(x) != 0
  }

  /** `try_get_pixel`: none off the grid. */
  function TryGet(s: Pixels, x: nat, y: nat): (r: Option<bool>)
    ensures r.Some? <==> OnGrid(x, y)
    ensures r.Some? ==> r.value == Pixel(s, x, y)
  {
    if y >= HEIGHT then None
    else if x >= WIDTH then None
    else Some(Pixel(s, x, y))
  }

  /** `get_pixel`: off the grid it is a debug assertion and `false` otherwise. */
  function Get(s: Pixels, x: nat, y: nat): (r: bool)
    ensures OnGrid(x, y) ==> r == Pixel(s, x, y)
    ensures !OnGrid(x, y) ==> !r
  {
    match TryGet(s, x, y)
    case Some(p) => p
    case None => false
  }

  function Set(s: Pixels, x: nat, y: nat, value: bool): (r: Pixels)
    requires OnGrid(x, y)
  {
    var b := ByteIndex(x, y);
    s[b := if value then s[b] | Mask(x) else s[b] & !Mask(x)]
  }

  /** `try_set_pixel`: an error off the grid, and then nothing changes. */
  function TrySet(s: Pixels, x: nat, y: nat, value: bool): (r: Option<Pixels>)
    ensures r.Some? <==> OnGrid(x, y)
    ensures r.Some? ==> r.value == Set(s, x, y, value)
  {
    if x >= WIDTH || y >= HEIGHT then None else Some(Set(s, x, y, value))
  }

  /** `set_pixel`: as `try_set_pixel`, with the error dropped. */
  function SetOrIgnore(s: Pixels, x: nat, y: nat, value: bool): (r: Pixels)
    ensures OnGrid(x, y) ==> r == Set(s, x, y, value)
    ensures !OnGrid(x, y) ==> r == s
  {
    match TrySet(s, x, y, value)
    case Some(t) => t
    case None => s
  }

  /** Whether sprite bit (ox, oy) is set: row oy, left pixel in bit 7. */
  predicate SpriteBit(sprite: seq<bv8>, ox: nat, oy: nat)
    requires ox < 8 && oy < |sprite|
  {
    sprite[oy] & (0x80 >> ox) != 0
  }

  /** Whether drawing `sprite` at (x, y) flips pixel (px, py). */
  predicate Covered(x: nat, y: nat, sprite: seq<bv8>, px: nat, py: nat) {
    x <= px < x + 8 && y <= py < y + |sprite| && SpriteBit(sprite, px - x, py - y)
  }

  /** One iteration of the inner loop of `draw_sprite`, for sprite cell (ox, oy). */
  function DrawCell(s: Pixels, x: nat, y: nat, sprite: seq<bv8>, ox: nat, oy: nat): Pixels
    requires ox < 8 && oy < |sprite|
  {
    var px, py := x + ox, y + oy;
    if OnGrid(px, py) && SpriteBit(sprite, ox, oy) then Set(s, px, py, !Pixel(s, px, py)) else s
  }

  /** The inner loop of `draw_sprite`: cells 0 .. n - 1 of sprite row oy, drawn onto `s`. */
  function RowUpTo(s: Pixels, x: nat, y: nat, sprite: seq<bv8>, oy: nat, n: nat): Pixels
    requires oy < |sprite| && n <= 8
  {
    if n == 0 then s else DrawCell(RowUpTo(s, x, y, sprite, oy, n - 1), x, y, sprite, n - 1, oy)
  }

  /** The outer loop of `draw_sprite`: rows 0 .. r - 1 of the sprite, drawn onto `s`. */
  function Rows(s: Pixels, x: nat, y: nat, sprite: seq<bv8>, r: nat): Pixels
    requires r <= |sprite|
  {
    if r == 0 then s else RowUpTo(Rows(s, x, y, sprite, r - 1), x, y, sprite, r - 1, 8)
  }

  /** `draw_sprite`. */
  function Draw(s: Pixels, x: nat, y: nat, sprite: seq<bv8>): Pixels {
    Rows(s, x, y, sprite, |sprite|)
  }

  // ---- Properties -------------------------------------------------------

  /** The bit `Mask` picks out of a byte; distinct columns of a byte use distinct bits. */
  lemma MaskFacts(x: nat, x': nat, b: bv8)
    ensures (b | Mask(x)) & Mask(x) != 0
    ensures (b & !Mask(x)) & Mask(x) == 0
    ensures x % 8 != x' % 8 ==> ((b | Mask(x)) & Mask(x') != 0 <==> b & Mask(x') != 0)
    ensures x % 8 != x' % 8 ==> ((b & !Mask(x)) & Mask(x') != 0 <==> b & Mask(x') != 0)
  {
  }

  /** Distinct pixels in one byte sit at distinct bits. */
  lemma SameByte(x: nat, y: nat, px: nat, py: nat)
    requires OnGrid(x, y) && OnGrid(px, py) && ByteIndex(x, y) == ByteIndex(px, py)
    ensures py == y && (px == x || px % 8 != x % 8)
  {
    assert x == 8 * (x / 8) + x % 8 && px == 8 * (px / 8) + px % 8;
  }

  /** Setting a pixel then reading it gives the value set; every other pixel is unchanged. */
  lemma GetAfterSet(s: Pixels, x: nat, y: nat, value: bool, px: nat, py: nat)
    requires OnGrid(x, y) && OnGrid(px, py)
    ensures Pixel(Set(s, x, y, value), px, py) == if px == x && py == y then value else Pixel(s, px, py)
  {
    var b := ByteIndex(x, y);
    if ByteIndex(px, py) == b {
      SameByte(x, y, px, py);
      MaskFacts(x, px, s[b]);
    }
  }

  /** A blank screen has no pixel lit. */
  lemma BlankIsDark(x: nat, y: nat)
    requires OnGrid(x, y)
    ensures !Pixel(Blank(), x, y)
  {
  }

  /** The pixel that holds bit j of byte b. */
  lemma PixelOfBit(b: nat, j: nat)
    requires b < SIZE && j < 8
    ensures OnGrid(8 * (7 - b % 8) + j, b / 8)
    ensures ByteIndex(8 * (7 - b % 8) + j, b / 8) == b && Mask(8 * (7 - b % 8) + j) == Bit(j)
  {
  }

  /** Two bytes with the same eight bits are equal. */
  lemma ByteBits(u: bv8, w: bv8)
    requires forall j :: 0 <= j < 8 ==> (u & Bit(j) != 0) == (w & Bit(j) != 0)
    ensures u == w
  {
    assert Bit(0) == 0x01 && Bit(1) == 0x02 && Bit(2) == 0x04 && Bit(3) == 0x08;
    assert Bit(4) == 0x10 && Bit(5) == 0x20 && Bit(6) == 0x40 && Bit(7) == 0x80;
  }

  /** Screens that agree on every pixel are the same bytes: the 256 bytes hold nothing else. */
  lemma {:induction false} Extensionality(s: Pixels, t: Pixels)
    requires forall x, y :: OnGrid(x, y) ==> Pixel(s, x, y) == Pixel(t, x, y)
    ensures s == t
  {
    forall b | 0 <= b < SIZE
      ensures s[b] == t[b]
    {
      forall j | 0 <= j < 8
        ensures (s[b] & Bit(j) != 0) == (t[b] & Bit(j) != 0)
      {
        PixelOfBit(b, j);
        var x, y := 8 * (7 - b % 8) + j, b / 8;
        assert Pixel(s, x, y) == Pixel(t, x, y);
      }
      ByteBits(s[b], t[b]);
    }
  }

  /** Pixel (px, py) is among the first n cells of sprite row oy, and its sprite bit is set. */
  predicate RowCovered(x: nat, y: nat, sprite: seq<bv8>, oy: nat, n: nat, px: nat, py: nat)
    requires oy < |sprite| && n <= 8
  {
    py == y + oy && x <= px < x + n && SpriteBit(sprite, px - x, oy)
  }

  /** Pixel (px, py) is covered by one of the first r sprite rows. */
  predicate RowsCovered(x: nat, y: nat, sprite: seq<bv8>, r: nat, px: nat, py: nat) {
    Covered(x, y, sprite, px, py) && py < y + r
  }

  /** One iteration flips its own pixel when the sprite bit is set, and nothing else. */
  lemma DrawCellPixel(s: Pixels, x: nat, y: nat, sprite: seq<bv8>, ox: nat, oy: nat, px: nat, py: nat)
    requires ox < 8 && oy < |sprite| && OnGrid(px, py)
    ensures Pixel(DrawCell(s, x, y, sprite, ox, oy), px, py)
      == (Pixel(s, px, py) != (px == x + ox && py == y + oy && SpriteBit(sprite, ox, oy)))
  {
    var cx, cy := x + ox, y + oy;
    if OnGrid(cx, cy) && SpriteBit(sprite, ox, oy) {
      GetAfterSet(s, cx, cy, !Pixel(s, cx, cy), px, py);
    }
  }

  /** After n cells of a row, exactly the covered pixels among those cells are flipped. */
  lemma {:induction false} RowUpToPixel(s: Pixels, x: nat, y: nat, sprite: seq<bv8>, oy: nat, n: nat, px: nat, py: nat)
    requires oy < |sprite| && n <= 8 && OnGrid(px, py)
    ensures Pixel(RowUpTo(s, x, y, sprite, oy, n), px, py) == (Pixel(s, px, py) != RowCovered(x, y, sprite, oy, n, px, py))
  {
    if n > 0 {
      RowUpToPixel(s, x, y, sprite, oy, n - 1, px, py);
      DrawCellPixel(RowUpTo(s, x, y, sprite, oy, n - 1), x, y, sprite, n - 1, oy, px, py);
    }
  }

  /** After r rows, exactly the covered pixels among those rows are flipped. */
  lemma {:induction false} RowsPixel(s: Pixels, x: nat, y: nat, sprite: seq<bv8>, r: nat, px: nat, py: nat)
    requires r <= |sprite| && OnGrid(px, py)
    ensures Pixel(Rows(s, x, y, sprite, r), px, py) == (Pixel(s, px, py) != RowsCovered(x, y, sprite, r, px, py))
  {
    if r > 0 {
      RowsPixel(s, x, y, sprite, r - 1, px, py);
      RowUpToPixel(Rows(s, x, y, sprite, r - 1), x, y, sprite, r - 1, 8, px, py);
    }
  }

  /** `draw_sprite` flips exactly the on-grid pixels the sprite covers; nothing wraps around. */
  lemma DrawPixel(s: Pixels, x: nat, y: nat, sprite: seq<bv8>, px: nat, py: nat)
    requires OnGrid(px, py)
    ensures Pixel(Draw(s, x, y, sprite), px, py) == (Pixel(s, px, py) != Covered(x, y, sprite, px, py))
  {
    RowsPixel(s, x, y, sprite, |sprite|, px, py);
  }

  /** Drawing the same sprite twice at the same place restores the screen (XOR). */
  lemma DrawTwice(s: Pixels, x: nat, y: nat, sprite: seq<bv8>)
    ensures Draw(Draw(s, x, y, sprite), x, y, sprite) == s
  {
    forall px, py | OnGrid(px, py)
      ensures Pixel(Draw(Draw(s, x, y, sprite), x, y, sprite), px, py) == Pixel(s, px, py)
    {
      DrawPixel(s, x, y, sprite, px, py);
      DrawPixel(Draw(s, x, y, sprite), x, y, sprite, px, py);
    }
    Extensionality(Draw(Draw(s, x, y, sprite), x, y, sprite), s);
  }

  // ---- The display object -------------------------------------------------

  /**
   * The screen as an object over 256 bytes of `buf` starting at `base`: a
   * screen of its own (`new`), or the view a `Memory4K` hands out over its
   * last 256 bytes. Every method changes only those 256 bytes.
   */
  class ScreenMonochrome64x32 {
    const buf: array<bv8>
    const base: nat

    predicate Valid()
      reads this
    {
      base + SIZE <= buf.Length
    }

    /** The 256 bytes the screen consists of. */
    function View(): Pixels
      reads this, buf
      requires Valid()
    {
      buf[base..base + SIZE]
    }

    /** Every byte of `buf` outside the screen is as in `before`. */
    ghost predicate Outside(before: seq<bv8>)
      reads this, buf
      requires Valid()
    {
      |before| == buf.Length && buf[..base] == before[..base] && buf[base + SIZE..] == before[base + SIZE..]
    }

    /** `new`: a blank screen with its own storage. */
    constructor ()
      ensures Valid() && fresh(buf) && base == 0 && View() == Blank()
    {
      buf := new bv8[SIZE](_ => 0);
      base := 0;
    }

    /** A screen stored in `buf[base .. base + 256]`. */
    constructor Over(buf: array<bv8>, base: nat)
      requires base + SIZE <= buf.Length
      ensures this.buf == buf && this.base == base && Valid()
    {
      this.buf := buf;
      this.base := base;
    }

    /** `try_get_pixel`, read from the bytes in place. */
    function TryGetPixel(x: nat, y: nat): (r: Option<bool>)
      reads this, buf
      requires Valid()
      ensures r.Some? <==> OnGrid(x, y)
      ensures r.Some? ==> r.value == Pixel(View(), x, y)
    {
      TryGet(View(), x, y)
    }

    /** Stores one byte of the screen. */
    method PutByte(b: nat, v: bv8)
      requires Valid() && b < SIZE
      modifies buf
      ensures View() == old(View())[b := v]
      ensures Outside(old(buf[..]))
    {
      buf[base + b] := v;
      assert View() == old(View())[b := v] by {
        forall k | 0 <= k < SIZE ensures View()[k] == old(View())[b := v][k] {
          assert View()[k] == buf[base + k];
        }
      }
    }

    /** `clear`: every pixel dark. */
    method Clear()
      requires Valid()
      modifies buf
      ensures View() == Blank()
      ensures Outside(old(buf[..]))
    {
      for k := 0 to SIZE
        invariant forall j :: 0 <= j < k ==> View()[j] == 0
        invariant Outside(old(buf[..]))
      {
        PutByte(k, 0);
      }
      assert View() == Blank();
    }

    /** `try_set_pixel`: false, and nothing changed, off the grid. */
    method TrySetPixel(x: nat, y: nat, value: bool) returns (ok: bool)
      requires Valid()
      modifies buf
      ensures ok == OnGrid(x, y)
      ensures View() == if ok then Set(old(View()), x, y, value) else old(View())
      ensures Outside(old(buf[..]))
    {
      if x >= WIDTH {
        return false;
      }
      if y >= HEIGHT {
        return false;
      }
      var b := ByteIndex(x, y);
      var row := buf[base + b];
      PutByte(b, if value then row | Mask(x) else row & !Mask(x));
      return true;
    }

    /** `set_pixel`: `try_set_pixel` with the error ignored. */
    method SetPixel(x: nat, y: nat, value: bool)
      requires Valid()
      modifies buf
      ensures View() == SetOrIgnore(old(View()), x, y, value)
      ensures Outside(old(buf[..]))
    {
      var _ := TrySetPixel(x, y, value);
    }

    /** `draw_sprite`: XOR each set sprite bit onto the grid, row by row. */
    method DrawSprite(x: nat, y: nat, sprite: seq<bv8>)
      requires Valid()
      modifies buf
      ensures View() == Draw(old(View()), x, y, sprite)
      ensures Outside(old(buf[..]))
    {
      for oy := 0 to |sprite|
        invariant View() == Rows(old(View()), x, y, sprite, oy)
        invariant Outside(old(buf[..]))
      {
        DrawRow(x, y, sprite, oy);
      }
    }

    /** The body of the outer loop of `draw_sprite`: row `oy` of the sprite. */
    method DrawRow(x: nat, y: nat, sprite: seq<bv8>, oy: nat)
      requires Valid() && oy < |sprite|
      modifies buf
      ensures View() == RowUpTo(old(View()), x, y, sprite, oy, 8)
      ensures Outside(old(buf[..]))
    {
      for ox := 0 to 8
        invariant View() == RowUpTo(old(View()), x, y, sprite, oy, ox)
        invariant Outside(old(buf[..]))
      {
        FlipCell(x, y, sprite, ox, oy);
      }
    }

    /** The body of the inner loop of `draw_sprite`. */
    method FlipCell(x: nat, y: nat, sprite: seq<bv8>, ox: nat, oy: nat)
      requires Valid() && ox < 8 && oy < |sprite|
      modifies buf
      ensures View() == DrawCell(old(View()), x, y, sprite, ox, oy)
      ensures Outside(old(buf[..]))
    {
      var px, py := x + ox, y + oy;
      var original := TryGetPixel(px, py);
      if original.Some? {
        if sprite[oy] & (0x80 >> ox) != 0 {
          SetPixel(px, py, !original.value);
        }
      }
    }
  }
}
