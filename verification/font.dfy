/**
 * `font::DEFAULT`: the sixteen 4x5 hex-digit glyphs. Each row is a byte whose
 * high nibble holds the four pixels, left pixel in bit 7.
 */
module Fonts {

  // One name per row pattern: `X` is a lit pixel, `o` a dark one.
  const oooo: bv8 := 0x00
  const oooX: bv8 := 0x10
  const ooXo: bv8 := 0x20
  const ooXX: bv8 := 0x30
  const oXoo: bv8 := 0x40
  const oXoX: bv8 := 0x50
  const oXXo: bv8 := 0x60
  const oXXX: bv8 := 0x70
  const Xooo: bv8 := 0x80
  const XooX: bv8 := 0x90
  const XoXo: bv8 := 0xA0
  const XoXX: bv8 := 0xB0
  const XXoo: bv8 := 0xC0
  const XXoX: bv8 := 0xD0
  const XXXo: bv8 := 0xE0
  const XXXX: bv8 := 0xF0

  const DEFAULT: seq<seq<bv8>> := [
    [oXXo, XooX, XooX, XooX, oXXo],  // 0
    [oXoo, XXoo, oXoo, oXoo, XXXo],  // 1
    [XXXo, oooX, ooXo, oXoo, XXXX],  // 2
    [XXXo, oooX, oXXo, oooX, XXXo],  // 3
    [XoXo, XoXo, XXXX, ooXo, ooXo],  // 4
    [XXXX, Xooo, XXXo, oooX, XXXo],  // 5
    [oXXX, Xooo, XXXo, XooX, oXXo],  // 6
    [XXXX, oooX, ooXo, oXoo, Xooo],  // 7
    [oXXo, XooX, oXXo, XooX, oXXo],  // 8
    [oXXo, XooX, oXXX, oooX, oooX],  // 9
    [oXXo, XooX, XXXX, XooX, XooX],  // A
    [XXXo, XooX, XXXo, XooX, XXXo],  // B
    [oXXX, Xooo, Xooo, Xooo, oXXX],  // C
    [XXXo, XooX, XooX, XooX, XXXX],  // D
    [XXXX, Xooo, XXXo, Xooo, XXXX],  // E
    [XXXX, Xooo, XXXo, Xooo, Xooo]   // F
  ]

  /** Whether every glyph is five rows that use only the high nibble. */
  predicate WellShaped(font: seq<seq<bv8>>) {
    forall d :: 0 <= d < |font| ==> |font[d]| == 5 && forall k :: 0 <= k < 5 ==> font[d][k] & 0x0F == 0
  }

  /** The glyphs laid end to end, as they are copied into memory. */
  function Flatten(font: seq<seq<bv8>>): (r: seq<bv8>)
    requires WellShaped(font)
    ensures |r| == 5 * |font|
    ensures forall d, k :: 0 <= d < |font| && 0 <= k < 5 ==> r[5 * d + k] == font[d][k]
  {
    if font == [] then [] else font[0] + Flatten(font[1..])
  }

  /** The flattened table, 80 bytes. */
  function Bytes(): (r: seq<bv8>)
    ensures |r| == 80
  {
    FontShape();
    Flatten(DEFAULT)
  }

  /** Sixteen glyphs, one per hex digit, each five rows in the high nibble. */
  lemma FontShape()
    ensures |DEFAULT| == 16 && WellShaped(DEFAULT)
  {
  }

  /** The first and last glyphs, and where the table ends when loaded at 0x050. */
  lemma FontGlyphs()
    ensures DEFAULT[0x0] == [0x60, 0x90, 0x90, 0x90, 0x60]
    ensures DEFAULT[0xF] == [0xF0, 0x80, 0xE0, 0x80, 0x80]
    ensures 0x050 + |Bytes()| == 0x0A0 && 0x0A0 <= 0x200
  {
  }
}
