# CHIP-8 interpreter core, modelled in Dafny

This project models the interpreter core of the `chip8` crate: a CHIP-8 virtual
machine with 4 KiB of byte memory, sixteen 8-bit registers V0 ..= VF, an
address register I, a program counter, a call stack, a delay timer and a sound
timer. The 64 x 32 monochrome screen lives in the last 256 bytes of memory. The
model covers the following, and proves properties of each:

- the instruction decoder `Op::decode`, with its visitor trait `Decode`;
- the disassembler `Debug for Op`;
- the step semantics of `Context::try_step_single` / `try_step_many` /
  `step_clocks`;
- memory (`Memory4K`) and the screen (`ScreenMonochrome64x32`);
- the small value types (`Nibble`, `V`, `Addr`, `Registers`) and the font;
- the per-thread context table of `tls.rs`.

Modules, one per source file (plus two shared ones):

- `Prelude` (shared): `Option`
- `Fmt` (shared): the hex and decimal digit formatting of `write!`, with parse-back functions
- `Nibbles` (`nibble.rs`): 16-constructor datatype and its conversions
- `RegisterIndex` (`src/v.rs`): `V` over a nibble
- `Addresses` (`addr.rs`): `Addr` and the memory-map constants
- `RegisterFile` (`registers.rs`): the register record; `Index`/`IndexMut` as `Get`/`Set`
- `Fonts` (`font.rs`): the default 16-glyph font
- `Decoding` (`decode.rs`): `Decode : U16 -> Instruction`, with the independent inverse `Encode`
- `Disassembly` (`op.rs`): `Debug` text of every instruction
- `OpDebugTable` (`op.rs`): each entry of the `op_debug` table as its own lemma
- `Memories` (`memory.rs`): class `Memory4K` over an `array<bv8>` of 4096 bytes, proved against functions on `seq<bv8>`
- `Screens` (`screen.rs`): class `ScreenMonochrome64x32`, a view of 256 bytes of an array at an offset, proved against functions on the 256 bytes
- `Machines` (`context.rs`): pure step semantics: `Exec(machine, instruction, overlap) : Outcome`
- `Contexts` (`context.rs`): class `Context` (registers + `Memory4K`), each method proved against `Machines`
- `ThreadLocals` (`tls.rs`): class `Tls`: the context table, free list and tick clock

Key modelling choices:

- **Outcomes.** A step's result is an `Outcome`, one of three:
  - `Ran(next)`: the source returns `true`;
  - `Refused`: it returns `false` and the state is untouched;
  - `Panicked(why)`: it panics.
- **Debug-build arithmetic.** A `u16` addition that overflows panics, as it
  does in a debug build. Examples are `pc + 2`, `i + Vx` and `i + k` in
  `reg_dump`.
- **Shared screen storage.** The screen object the context hands out shares
  its storage with the memory array. `Memory4K.Screen` returns a
  `ScreenMonochrome64x32` whose `buf` is the memory's own array, at offset
  0xF00. Drawing through it therefore changes memory.
- **Pixel layout.** Pixel (x, y) is bit `x % 8` of byte `8y + 7 - x/8` of the
  screen. That is what `u64::from_be` of row y followed by `1 << x` selects,
  on either host byte order.

Where the textbook CHIP-8 opcode table (the Wikipedia table that
`crates/interpreter/src/decode.rs:8` refers to) and the code differ, the model
follows the code:

- 8XY4, 8XY5 and 8XY7 wrap and do not touch VF (`ByteOpsWriteOnlyVx`,
  `AddWrapsWithoutCarry`, `SubWrapsWithoutBorrow`).
- 8XY6 and 8XYE shift Vx in place and ignore Y. 8XYE stores `Vx & 0x80` in VF,
  that is 0x80 rather than 1 (`ShiftRight`, `ShiftLeft`).
- FX29 points I at `5 * Vx` from address 0x000. The font is loaded at 0x050
  (`SpriteAddressMissesFont`).
- Pixels are least-significant-bit first within each screen byte, not
  most-significant first.
- `copy_from_slice` and the sprite fetch of DXYN index memory with the full
  16-bit I, unmasked. `read` and `write` mask the address to 12 bits. So FX33
  refuses, and DXYN panics, when the bytes run past 4 KiB.

## Model

| member | source | states |
|---|---|---|
| Fmt.Digit | crates/interpreter/src/op.rs:22 | one hex digit of the requested case whose value is `d`; a decimal digit exactly when `d < 10` |
| Fmt.Hex | crates/interpreter/src/addr.rs:7 | `{:0Nx}` / `{:0NX}`: at least one and at least `width` hex digits of the requested case, with no leading zero beyond the padding (`HexRoundTrip` proves they read back as the number) |
| Fmt.Dec | crates/interpreter/src/op.rs:50 | `{}` of a number: one or more decimal digits, with no leading zero (`DecRoundTrip` proves they read back as the number) |
| Fmt.HexRoundTrip | crates/interpreter/src/addr.rs:7 | parsing `Hex(n, width)` back in base 16 gives `n`: the formatting loses nothing |
| Fmt.DecRoundTrip | crates/interpreter/src/op.rs:50 | parsing `Dec(n)` back in base 10 gives `n` |
| Fmt.HexWidth | crates/interpreter/src/addr.rs:7 | zero padding: a number below 16^width prints with exactly `width` digits |
| Fmt.HexAtLeast | crates/interpreter/src/addr.rs:7 | a number of at least 16^width prints with more than `width` digits (padding never truncates) |
| Fmt.HexFour | crates/interpreter/src/op.rs:16 | `{:04X}` of a word of four significant digits is its four nibbles, most significant first |
| Nibbles.ToU8 | crates/interpreter/src/nibble.rs:46 | a nibble's value is below 16 |
| Nibbles.ToU16 | crates/interpreter/src/nibble.rs:47 | the same value as `to_u8`, below 16 |
| Nibbles.ToUsize | crates/interpreter/src/nibble.rs:48 | the same value as `to_u8`, below 16 |
| Nibbles.Truncate8 | crates/interpreter/src/nibble.rs:54-62 | the nibble whose value is `v & 0xF`; the `unreachable!` arm is never taken (the function is total on bytes) |
| Nibbles.Truncate16 | crates/interpreter/src/nibble.rs:53 | the nibble whose value is the low four bits of the word |
| Nibbles.Literal | crates/interpreter/src/nibble.rs:64-67 | for `v < 16` (the `assert!`), the nibble whose value is exactly `v` |
| Nibbles.TryFrom | crates/interpreter/src/nibble.rs:74-78 | `Ok` exactly when `v < 16`, and then the nibble has value `v` |
| Nibbles.Iter | crates/interpreter/src/nibble.rs:69 | sixteen nibbles, the k-th with value k |
| Nibbles.ArrayMut | crates/interpreter/src/nibble.rs:51 | writing through `array_mut` changes slot `n` to `x`, every other slot unchanged, length 16 |
| Nibbles.ArrayRef | crates/interpreter/src/nibble.rs:50 | `array_ref`: element `to_usize()` of a 16-element array; what it reads after `array_mut` is stated by `ArrayMut` |
| Nibbles.UpperHex | crates/interpreter/src/nibble.rs:83 | one upper-case hex digit whose value is the nibble's |
| Nibbles.Display | crates/interpreter/src/nibble.rs:81 | `{}` on a nibble: one or two decimal digits (two exactly from 10 up) that read back as the nibble's value |
| Nibbles.ToU8Injective | crates/interpreter/src/nibble.rs:27-43 | distinct nibbles have distinct values (the sixteen constants are distinct) |
| Nibbles.RoundTrip | crates/interpreter/src/nibble.rs:54-62 | `truncate8(n.to_u8()) == n` for every nibble |
| Nibbles.IterIsEnumeration | crates/interpreter/src/nibble.rs:69 | `iter()` yields N0, N1, ..., NF in order |
| RegisterIndex.Display | src/v.rs:13 | "V" then one upper-case hex digit that parses back to the register number |
| RegisterIndex.Iter | crates/interpreter/src/context.rs:71 | `V::iter()`: sixteen registers, the k-th being Vk |
| RegisterIndex.DisplayInjective | src/v.rs:13 | two registers print the same exactly when they are the same register |
| RegisterIndex.DebugIsDisplay | src/v.rs:13-14 | `Debug` and `Display` print the same text |
| RegisterIndex.Debug | src/v.rs:14 | `Debug for V`; `DebugIsDisplay` states it prints what `Display` prints |
| Addresses.Display | crates/interpreter/src/addr.rs:7-8 | "0x" then at least three lower-case hex digits, the first of them non-zero when there are more than three (`DisplayRoundTrip` proves they read back as the address) |
| Addresses.DisplayRoundTrip | crates/interpreter/src/addr.rs:7 | the digits parse back to the address; exactly three digits iff the address is below 0x1000 |
| Addresses.RegionLayout | crates/interpreter/src/addr.rs:17-29 | the memory map: the display is the last 256 bytes (64 x 32 bits); 96 stack bytes precede it; programs start where the interpreter's font area ends, below the ETI 660 start; the typical font start lies inside the font area |
| Addresses.ToU16 | crates/interpreter/src/addr.rs:11 | `to_u16`: the wrapped number; `Conversions` states it loses nothing of the address |
| Addresses.ToUsize | crates/interpreter/src/addr.rs:12 | `to_usize`: the same number as `to_u16`; `Conversions` states it |
| Addresses.Conversions | crates/interpreter/src/addr.rs:11-12 | `to_usize` and `to_u16` agree, are below 0x10000, and `Addr(a.to_u16())` is `a` again |
| RegisterFile.Default | crates/interpreter/src/registers.rs:6-21 | `Registers::default()`: every V register, I, PC, both timers zero, empty stack, sound not playing |
| RegisterFile.Get | crates/interpreter/src/registers.rs:23-26 | `registers[x]`; `GetIsElement` states which array element it is, and `Set`, `SetSet`, `SetGet` how it reads after writes |
| RegisterFile.Set | crates/interpreter/src/registers.rs:28-30 | `registers[x] = b`: Vx reads back as `b`, every other V register and every other field unchanged |
| RegisterFile.GetIsElement | crates/interpreter/src/registers.rs:23-26 | `registers[x]` is element `x.to_usize()` of the array; V0 is element 0 and VF element 15 |
| RegisterFile.SetSet | crates/interpreter/src/registers.rs:28-30 | a second write to the same register overrides the first |
| RegisterFile.SetGet | crates/interpreter/src/registers.rs:23-30 | writing back the value read changes nothing |
| RegisterFile.SetCommutes | crates/interpreter/src/registers.rs:28-30 | writes to distinct registers commute |
| Fonts.Flatten | crates/interpreter/src/tls.rs:35 | `cast_slice` of the glyph table: 5 bytes per glyph, row k of glyph d at offset 5d + k |
| Fonts.Bytes | crates/interpreter/src/font.rs:20 | the flattened default font is 80 bytes |
| Fonts.FontShape | crates/interpreter/src/font.rs:20-133 | sixteen glyphs of five rows each, only the high four bits of each row set |
| Fonts.FontGlyphs | crates/interpreter/src/font.rs:21-27 | glyph 0 and glyph F have the listed rows, and the flattened font loaded at 0x050 ends at 0x0A0, below 0x200 |
| Decoding.Decode | crates/interpreter/src/decode.rs:51-128 | `Op::decode`: the instruction a word decodes to; `DecodeWellFormed`, `EncodeDecode` and `DecodeEncode` state that it is well formed, loses no bit and has `Encode` as its inverse |
| Decoding.IsDefined | crates/interpreter/src/decode.rs:59-126 | the words the match arms cover, written digit by digit apart from the decoder; `DecodeWellFormed` states that `invalid` is reached exactly outside them |
| Decoding.Encode | crates/interpreter/src/decode.rs:51-128 | the opcode word of each instruction, the inverse partner of `Decode` (`EncodeDecode`, `DecodeEncode`) |
| Decoding.DecodeWellFormed | crates/interpreter/src/decode.rs:51-128 | every word decodes to a well-formed instruction (addresses below 0x1000; `call_mcs` never of 0x0E0 or 0x0EE); it decodes to `invalid` exactly when it is outside the opcode table, stated apart from the decoder by its hex digits; an invalid instruction carries the word unchanged |
| Decoding.EncodeDecode | crates/interpreter/src/decode.rs:51-128 | `Encode(Decode(w)) == w` for every word: decoding loses no bit of the word |
| Decoding.DecodeEncode | crates/interpreter/src/decode.rs:51-128 | `Decode(Encode(i)) == i` for every well-formed instruction: each instruction has exactly one word, so no two opcode patterns overlap |
| Decoding.EncodeDecodeAddress | crates/interpreter/src/decode.rs:60-99 | the round trip `Encode(Decode(w)) == w` for the 0, 1, 2, A and B groups |
| Decoding.EncodeDecodeRegReg | crates/interpreter/src/decode.rs:69-101 | the same for the 5, 8, 9 and D groups |
| Decoding.EncodeDecodeRegConst | crates/interpreter/src/decode.rs:67-100 | the same for the 3, 4, 6, 7 and C groups |
| Decoding.EncodeDecodeReg | crates/interpreter/src/decode.rs:102-126 | the same for the E and F groups |
| Decoding.EncodeDecodeF | crates/interpreter/src/decode.rs:111-126 | the same for one F-group word given its fields |
| Decoding.DecodeEncodeConst | crates/interpreter/src/decode.rs:67-100 | `Decode(Encode(i)) == i` for 3XNN, 4XNN, 6XNN, 7XNN and CXNN |
| Decoding.DecodeEncodePair | crates/interpreter/src/decode.rs:69-101 | the same for the register-pair instructions and DXYN |
| Decoding.DecodeEncodeArith | crates/interpreter/src/decode.rs:73-89 | the same for the 8 group |
| Decoding.DecodeEncodeCarry | crates/interpreter/src/decode.rs:81-85 | the same for 8XY4 ..= 8XY7 and 8XYE |
| Decoding.DecodeEncodeOne | crates/interpreter/src/decode.rs:102-126 | the same for the single-register E and F instructions |
| Decoding.DecodeEncodeMisc | crates/interpreter/src/decode.rs:111-126 | the same for the F group |
| Decoding.DecodeEncodeMemory | crates/interpreter/src/decode.rs:119-123 | the same for FX1E, FX29, FX33, FX55 and FX65 |
| Decoding.MiscWord | crates/interpreter/src/decode.rs:111-114 | an F-group word with register X and low byte `lo` goes to the F-group table with that byte |
| Decoding.NibbleOf | crates/interpreter/src/decode.rs:53 | `n(v)` keeps the low four bits |
| Decoding.ConstWord | crates/interpreter/src/decode.rs:67-72 | a word built from group, X and NN yields those fields back |
| Decoding.PairWord | crates/interpreter/src/decode.rs:73-75 | a word built from group, X, Y and N yields those fields back |
| Decoding.OneWord | crates/interpreter/src/decode.rs:103-104 | a word built from group, X and a low byte yields those fields back |
| Decoding.DecodeArith | crates/interpreter/src/decode.rs:73-89 | the 8XYN table; `DecodeEncodeArith`, `DecodeEncodeCarry` and `EncodeDecodeRegReg` state that it inverts `Encode` on that group |
| Decoding.DecodeMisc | crates/interpreter/src/decode.rs:111-126 | the FXNN table; `MiscWord`, `DecodeEncodeMisc`, `DecodeEncodeMemory` and `EncodeDecodeF` state that it inverts `Encode` on that group |
| Decoding.WithTraitDefaults | crates/interpreter/src/decode.rs:13-14 | the trait's default `display_clear` and `flow_return`, which call `call_mcs`; `ZeroGroup` states what every 0NNN word then reaches |
| Decoding.ZeroGroup | crates/interpreter/src/decode.rs:60-64 | 00E0 is `display_clear`, 00EE `flow_return`, any other 0NNN `call_mcs(NNN)`; with the trait's default methods (decode.rs:13-14) every 0NNN reaches `call_mcs` with the word itself |
| Disassembly.Byte | crates/interpreter/src/op.rs:22 | `{:02X}`: two upper-case hex digits that parse back to the byte |
| Disassembly.Disasm | crates/interpreter/src/op.rs:16-51 | the text of each decoded instruction; `DebugInvalid`, `NotInvalidPrefix`, `AssignsToI`, `SkipsStartWithS` and `OthersStartElsewhere` state what the text shows |
| Disassembly.Debug | crates/interpreter/src/op.rs:9-11 | `Debug for Op`: the text of the decoded word; `DebugInvalid` states when and how it reads as `invalid` |
| Disassembly.DebugInvalid | crates/interpreter/src/op.rs:16 | the text starts with "in" exactly when the word decodes to `invalid`; it is then "invalid ; 0x" and four digits that parse back to the word |
| Disassembly.NotInvalidPrefix | crates/interpreter/src/op.rs:17-51 | no valid instruction's text starts with "in", so an `invalid` line cannot be mistaken for one |
| Disassembly.AssignsToI | crates/interpreter/src/op.rs:37-50 | the same for the instructions whose text starts with "i" |
| Disassembly.SkipsStartWithS | crates/interpreter/src/op.rs:22-42 | the same for the skips |
| Disassembly.OthersStartElsewhere | crates/interpreter/src/op.rs:17-51 | the same for the remaining instructions not starting with a register name |
| OpDebugTable.InvalidLine | crates/interpreter/src/op.rs:16 | the text of an invalid word of four significant digits is "invalid ; 0x" and its four upper-case nibbles |
| OpDebugTable.Line0123 | crates/interpreter/src/op.rs:57 | `Debug(Op(0x0123))` is exactly `call_mcs 0x123` |
| OpDebugTable.Line00E0 | crates/interpreter/src/op.rs:58 | `Debug(Op(0x00E0))` is exactly `display_clear` |
| OpDebugTable.Line00EE | crates/interpreter/src/op.rs:59 | `Debug(Op(0x00EE))` is exactly `return` |
| OpDebugTable.Line1234 | crates/interpreter/src/op.rs:61 | `Debug(Op(0x1234))` is exactly `pc <- 0x234` |
| OpDebugTable.Line2345 | crates/interpreter/src/op.rs:62 | `Debug(Op(0x2345))` is exactly `call 0x345` |
| OpDebugTable.Line3456 | crates/interpreter/src/op.rs:63 | `Debug(Op(0x3456))` is exactly `skip_if V4 == 0x56` |
| OpDebugTable.Line4567 | crates/interpreter/src/op.rs:64 | `Debug(Op(0x4567))` is exactly `skip_if V5 != 0x67` |
| OpDebugTable.Line5670 | crates/interpreter/src/op.rs:66 | `Debug(Op(0x5670))` is exactly `skip_if V6 == V7` |
| OpDebugTable.Line5678 | crates/interpreter/src/op.rs:67 | `Debug(Op(0x5678))` is exactly `invalid ; 0x5678` |
| OpDebugTable.Line6123 | crates/interpreter/src/op.rs:69 | `Debug(Op(0x6123))` is exactly `V1 <- 0x23` |
| OpDebugTable.Line7234 | crates/interpreter/src/op.rs:71 | `Debug(Op(0x7234))` is exactly `V2 <- V2 + 0x34` |
| OpDebugTable.Line8210 | crates/interpreter/src/op.rs:73 | `Debug(Op(0x8210))` is exactly `V2 <- V1` |
| OpDebugTable.Line8321 | crates/interpreter/src/op.rs:74 | `Debug(Op(0x8321))` is exactly `V3 <- V3 \| V2` |
| OpDebugTable.Line8432 | crates/interpreter/src/op.rs:75 | `Debug(Op(0x8432))` is exactly `V4 <- V4 & V3` |
| OpDebugTable.Line8543 | crates/interpreter/src/op.rs:76 | `Debug(Op(0x8543))` is exactly `V5 <- V5 ^ V4` |
| OpDebugTable.Line8654 | crates/interpreter/src/op.rs:77 | `Debug(Op(0x8654))` is exactly `V6 <- V6 + V5` |
| OpDebugTable.Line8765 | crates/interpreter/src/op.rs:78 | `Debug(Op(0x8765))` is exactly `V7 <- V7 - V6` |
| OpDebugTable.Line8876 | crates/interpreter/src/op.rs:79 | `Debug(Op(0x8876))` is exactly `V8 <- V8 >> 1 ; V7` |
| OpDebugTable.Line8987 | crates/interpreter/src/op.rs:80 | `Debug(Op(0x8987))` is exactly `V9 <- V8 - V9` |
| OpDebugTable.Line8678 | crates/interpreter/src/op.rs:81 | `Debug(Op(0x8678))` is exactly `invalid ; 0x8678` |
| OpDebugTable.Line8789 | crates/interpreter/src/op.rs:82 | `Debug(Op(0x8789))` is exactly `invalid ; 0x8789` |
| OpDebugTable.Line889A | crates/interpreter/src/op.rs:83 | `Debug(Op(0x889A))` is exactly `invalid ; 0x889A` |
| OpDebugTable.Line89AB | crates/interpreter/src/op.rs:84 | `Debug(Op(0x89AB))` is exactly `invalid ; 0x89AB` |
| OpDebugTable.Line8ABC | crates/interpreter/src/op.rs:85 | `Debug(Op(0x8ABC))` is exactly `invalid ; 0x8ABC` |
| OpDebugTable.Line8BCD | crates/interpreter/src/op.rs:86 | `Debug(Op(0x8BCD))` is exactly `invalid ; 0x8BCD` |
| OpDebugTable.Line8CDE | crates/interpreter/src/op.rs:87 | `Debug(Op(0x8CDE))` is exactly `VC <- VC << 1 ; VD` |
| OpDebugTable.Line8DEF | crates/interpreter/src/op.rs:88 | `Debug(Op(0x8DEF))` is exactly `invalid ; 0x8DEF` |
| OpDebugTable.Line9210 | crates/interpreter/src/op.rs:90 | `Debug(Op(0x9210))` is exactly `skip_if V2 != V1` |
| OpDebugTable.Line9001 | crates/interpreter/src/op.rs:91 | `Debug(Op(0x9001))` is exactly `invalid ; 0x9001` |
| OpDebugTable.LineA123 | crates/interpreter/src/op.rs:93 | `Debug(Op(0xA123))` is exactly `i <- 0x123` |
| OpDebugTable.LineB234 | crates/interpreter/src/op.rs:94 | `Debug(Op(0xB234))` is exactly `pc <- V0 + 0x234` |
| OpDebugTable.LineC345 | crates/interpreter/src/op.rs:95 | `Debug(Op(0xC345))` is exactly `V3 <- rand() & 0x45` |
| OpDebugTable.LineD45A | crates/interpreter/src/op.rs:96 | `Debug(Op(0xD45A))` is exactly `draw_sprite(x=V4, y=V5, h=10, sprite=i)` |
| OpDebugTable.LineE123 | crates/interpreter/src/op.rs:98 | `Debug(Op(0xE123))` is exactly `invalid ; 0xE123` |
| OpDebugTable.LineEF9E | crates/interpreter/src/op.rs:99 | `Debug(Op(0xEF9E))` is exactly `skip_if key_pressed(VF)` |
| OpDebugTable.LineEEA1 | crates/interpreter/src/op.rs:100 | `Debug(Op(0xEEA1))` is exactly `skip_if !key_pressed(VE)` |
| OpDebugTable.LineFA07 | crates/interpreter/src/op.rs:102 | `Debug(Op(0xFA07))` is exactly `VA <- delay_timer` |
| OpDebugTable.LineFB0A | crates/interpreter/src/op.rs:103 | `Debug(Op(0xFB0A))` is exactly `VB <- get_key()` |
| OpDebugTable.LineF012 | crates/interpreter/src/op.rs:104 | `Debug(Op(0xF012))` is exactly `invalid ; 0xF012` |
| OpDebugTable.LineFC15 | crates/interpreter/src/op.rs:105 | `Debug(Op(0xFC15))` is exactly `delay_timer <- VC` |
| OpDebugTable.LineFD18 | crates/interpreter/src/op.rs:106 | `Debug(Op(0xFD18))` is exactly `sound_timer <- VD` |
| OpDebugTable.LineFA1E | crates/interpreter/src/op.rs:107 | `Debug(Op(0xFA1E))` is exactly `i <- i + VA` |
| OpDebugTable.LineFB29 | crates/interpreter/src/op.rs:108 | `Debug(Op(0xFB29))` is exactly `i <- sprites[VB]` |
| OpDebugTable.LineFC33 | crates/interpreter/src/op.rs:109 | `Debug(Op(0xFC33))` is exactly `i[0..3] <- bcd(VC)` |
| OpDebugTable.LineFD55 | crates/interpreter/src/op.rs:110 | `Debug(Op(0xFD55))` is exactly `i[0..=13] <- [V0..=VD]` |
| OpDebugTable.LineFE65 | crates/interpreter/src/op.rs:111 | `Debug(Op(0xFE65))` is exactly `[V0..=VE] <- i[0..=14]` |
| Memories.Zeros | crates/interpreter/src/memory.rs:11 | `Memory4K::new()`: 4096 bytes, every one zero |
| Memories.Cell | crates/interpreter/src/memory.rs:13 | the cell an address reaches, `addr & 0xFFF`, is always inside the 4 KiB, so `read` and `write` never miss |
| Memories.Peek | crates/interpreter/src/memory.rs:13 | `read`: the byte of the masked cell; `ReadAfterWrite` relates it to `Poke` |
| Memories.Peek16 | crates/interpreter/src/memory.rs:14 | `read16`: the big-endian word of two cells; `Read16Wraps` states its wrapping |
| Memories.Poke | crates/interpreter/src/memory.rs:15 | `write`: the contents with the masked cell replaced; `ReadAfterWrite` states what reads see |
| Memories.Splice | crates/interpreter/src/memory.rs:22 | after copying `src` to `at`, cell k holds `src[k - at]` inside the range and its old value outside |
| Memories.CopySlice | crates/interpreter/src/memory.rs:19-23 | `copy_from_slice` on the contents; `CopySliceSpec` states when it succeeds and what reads back |
| Memories.ReadCount | crates/interpreter/src/memory.rs:31-36 | the reader's `read` into a buffer of `room` bytes returns at most `room` bytes and no more than are left; it returns 0 exactly when the buffer is empty or the input is used up |
| Memories.LoadIo | crates/interpreter/src/memory.rs:25-42 | `copy_from_io`'s chunked loop, for a reader with any chunk size; `LoadIoSpec` states its closed form `Loaded` |
| Memories.Loaded | crates/interpreter/src/memory.rs:25-42 | the closed form of the load: success exactly when the start is at most 4096 and the input fits, the input spliced at the start (cut at 4096 otherwise); `LoadedStep` states it is the loop's invariant |
| Memories.ReadAfterWrite | crates/interpreter/src/memory.rs:13-15 | `read(b)` after `write(a, v)` is `v` when a and b reach the same cell (mod 4096) and the old value otherwise; no other cell changes |
| Memories.Read16Wraps | crates/interpreter/src/memory.rs:14 | `read16` is big-endian and wraps: at 0xFFF it pairs the last byte with the first, and any two addresses that agree modulo 4096 read the same word |
| Memories.CopySliceSpec | crates/interpreter/src/memory.rs:19-23 | `copy_from_slice` succeeds exactly when `addr + len <= 4096` (the address is not masked); then `src` reads back at addr, addr + 1, ... and every other cell is unchanged |
| Memories.SpliceTwice | crates/interpreter/src/memory.rs:36-38 | copying `u` and then `w` right after it is copying `u + w`: chunked reads add up |
| Memories.LoadedStep | crates/interpreter/src/memory.rs:36-39 | one successful chunk of `n` bytes leaves the rest of the load to do from `addr + n`: the closed form `Loaded` is invariant under the loop body |
| Memories.LoadIoSpec | crates/interpreter/src/memory.rs:25-42 | the chunk-by-chunk loop, for any chunk size, has the closed-form result `Loaded`: success exactly when the start is at most 4096 and the whole input fits below 4096, with the input copied to addr; on failure the part that fitted has been copied |
| Memories.ScreenIsMemory | crates/interpreter/src/memory.rs:53-58 | screen byte b is memory cell 0xF00 + b, and a write to that cell is a write to that screen byte |
| Memories.ScreenOf | crates/interpreter/src/memory.rs:53-58 | the screen's 256 bytes within memory; `ScreenIsMemory` states that screen byte b is cell 0xF00 + b |
| Memories.Memory4K.constructor | crates/interpreter/src/memory.rs:11 | a fresh memory of 4096 zero bytes |
| Memories.Memory4K.Read | crates/interpreter/src/memory.rs:13 | `read` returns the byte of the masked cell (`Peek`), about which `ReadAfterWrite` is proved |
| Memories.Memory4K.Read16 | crates/interpreter/src/memory.rs:14 | `read16` returns the big-endian word of the two cells (`Peek16`), about which `Read16Wraps` is proved |
| Memories.Memory4K.Write | crates/interpreter/src/memory.rs:15 | the new contents are the old with the masked cell set to `value` |
| Memories.Memory4K.Clear | crates/interpreter/src/memory.rs:17 | every byte becomes zero |
| Memories.Memory4K.CopyFromSlice | crates/interpreter/src/memory.rs:19-23 | `Ok` exactly when the slice fits, and then the contents are the old with `src` at addr; otherwise unchanged |
| Memories.Memory4K.Fill | crates/interpreter/src/memory.rs:22 | the byte-by-byte copy leaves the old contents with `src` spliced in at `at` |
| Memories.Memory4K.CopyFromIo | crates/interpreter/src/memory.rs:25-42 | the loop's success flag and final contents are `Loaded(old contents, addr, input)` |
| Memories.Memory4K.Screen | crates/interpreter/src/memory.rs:53-58 | a screen object over this memory's own bytes at 0xF00, whose pixels are the memory's last 256 bytes |
| Screens.Blank | crates/interpreter/src/screen.rs:8 | `new()`: 256 zero bytes |
| Screens.ByteIndex | crates/interpreter/src/screen.rs:17-18 | for an on-grid pixel, the byte holding it is inside the 256, in row y's eight bytes, at position 7 - x/8 of the row (the big-endian `u64` row) |
| Screens.Bit | crates/interpreter/src/screen.rs:18 | the mask of bit j is `1 << j` |
| Screens.Pixel | crates/interpreter/src/screen.rs:16-20 | pixel (x, y) on the grid; `ByteIndex`, `PixelOfBit` and `Extensionality` state that the pixels are exactly the bits of the 256 bytes |
| Screens.Set | crates/interpreter/src/screen.rs:28-37 | the screen with pixel (x, y) set or cleared; `GetAfterSet` states that only that pixel changes |
| Screens.TryGet | crates/interpreter/src/screen.rs:16-20 | `Some` exactly when (x, y) is on the 64 x 32 grid, and then the pixel's value |
| Screens.Get | crates/interpreter/src/screen.rs:22-26 | the pixel when on the grid, `false` off it |
| Screens.TrySet | crates/interpreter/src/screen.rs:28-37 | `Ok` exactly when (x, y) is on the grid, and then the screen with that pixel set (`Set`, whose effect `GetAfterSet` states) |
| Screens.SetOrIgnore | crates/interpreter/src/screen.rs:39-41 | sets the pixel when on the grid and ignores the request (screen unchanged) off it |
| Screens.MaskFacts | crates/interpreter/src/screen.rs:31-35 | `row \|= mask` sets the pixel's bit and `row &= !mask` clears it, leaving every other bit of the byte |
| Screens.SameByte | crates/interpreter/src/screen.rs:17-18 | two on-grid pixels share a byte only in the same row at a different bit, or when they are the same pixel |
| Screens.GetAfterSet | crates/interpreter/src/screen.rs:28-37 | after `set_pixel(x, y, v)`, pixel (x, y) reads `v` and every other pixel reads as before |
| Screens.BlankIsDark | crates/interpreter/src/screen.rs:12-14 | after `clear`, every pixel is dark |
| Screens.PixelOfBit | crates/interpreter/src/screen.rs:17-18 | every bit of every screen byte is some on-grid pixel |
| Screens.ByteBits | crates/interpreter/src/screen.rs:4 | a byte is determined by its eight bits |
| Screens.Extensionality | crates/interpreter/src/screen.rs:3-4 | two screens with the same 2048 pixels are the same 256 bytes |
| Screens.DrawCellPixel | crates/interpreter/src/screen.rs:46-52 | one inner iteration flips exactly pixel (x + ox, y + oy), when it is on the grid and sprite bit (ox, oy) is set (bit 7 is the left-most) |
| Screens.DrawCell | crates/interpreter/src/screen.rs:46-52 | one inner iteration of `draw_sprite`; `DrawCellPixel` states which pixel it flips |
| Screens.RowUpTo | crates/interpreter/src/screen.rs:45-53 | the inner loop after n cells; `RowUpToPixel` states which pixels have flipped |
| Screens.Rows | crates/interpreter/src/screen.rs:44-54 | the outer loop after r rows; `RowsPixel` states which pixels have flipped |
| Screens.Covered | crates/interpreter/src/screen.rs:43-55 | whether a set bit of the sprite drawn at (x, y) lands on pixel (px, py), bit 7 of a row being the left-most; the reference that `DrawPixel` compares `Draw` with |
| Screens.Draw | crates/interpreter/src/screen.rs:43-55 | `draw_sprite` on the pixels; `DrawPixel` states it flips exactly the covered pixels and `DrawTwice` that it is its own inverse |
| Screens.RowUpToPixel | crates/interpreter/src/screen.rs:45-53 | after the first n inner iterations of row oy, a pixel has flipped exactly when one of those n cells covers it |
| Screens.RowsPixel | crates/interpreter/src/screen.rs:44-54 | after the first r rows, a pixel has flipped exactly when a set sprite bit of those rows covers it |
| Screens.DrawPixel | crates/interpreter/src/screen.rs:43-55 | `draw_sprite` XORs: an on-grid pixel flips exactly when a set sprite bit covers it; nothing wraps around the edges |
| Screens.DrawTwice | crates/interpreter/src/screen.rs:50 | drawing the same sprite twice at the same place restores the screen |
| Screens.ScreenMonochrome64x32.constructor | crates/interpreter/src/screen.rs:8 | a fresh blank screen with its own storage |
| Screens.ScreenMonochrome64x32.Over | crates/interpreter/src/memory.rs:54-57 | a screen whose 256 bytes are `buf[base ..]`, shared with the memory |
| Screens.ScreenMonochrome64x32.TryGetPixel | crates/interpreter/src/screen.rs:16-20 | `Some` exactly when on the grid, then the pixel in place |
| Screens.ScreenMonochrome64x32.PutByte | crates/interpreter/src/screen.rs:30-35 | one screen byte replaced; bytes of `buf` outside the screen untouched |
| Screens.ScreenMonochrome64x32.Clear | crates/interpreter/src/screen.rs:12-14 | the screen becomes `Blank` (all dark, by `BlankIsDark`); the rest of `buf` is untouched |
| Screens.ScreenMonochrome64x32.TrySetPixel | crates/interpreter/src/screen.rs:28-37 | `Ok` exactly when on the grid, and then the pixel is set (`GetAfterSet`); otherwise nothing changes |
| Screens.ScreenMonochrome64x32.SetPixel | crates/interpreter/src/screen.rs:39-41 | the pixel set when on the grid, nothing changed otherwise |
| Screens.ScreenMonochrome64x32.DrawSprite | crates/interpreter/src/screen.rs:43-55 | the nested loops leave the screen as `Draw` (which flips exactly the covered pixels, `DrawPixel`); the rest of `buf` is untouched |
| Screens.ScreenMonochrome64x32.DrawRow | crates/interpreter/src/screen.rs:45-53 | one row of the sprite drawn as its eight cells in order |
| Screens.ScreenMonochrome64x32.FlipCell | crates/interpreter/src/screen.rs:46-52 | one inner iteration: read the pixel, and if on the grid and the sprite bit is set, write its negation |
| Machines.Bcd | crates/interpreter/src/context.rs:94 | three bytes (their meaning is `BcdDigits`) |
| Machines.WithScreen | crates/interpreter/src/memory.rs:53-58 | writing through the screen view changes the last 256 bytes to the new screen and nothing below 0xF00 |
| Machines.Widen | crates/interpreter/src/context.rs:47 | `u16::from(u8)`: below 0x100 |
| Machines.Slot | crates/interpreter/src/context.rs:71-72 | the cell of Vk in `reg_dump`/`reg_load` is `Addr(I + k)` masked by `read`/`write`, inside the 4 KiB |
| Machines.Advance | crates/interpreter/src/context.rs:89 | `advance`: `pc += n`; `AdvanceMovesPc` states its effect and its overflow panic |
| Machines.AdvanceMovesPc | crates/interpreter/src/context.rs:89 | PC moves by exactly n and nothing else changes; it panics (`u16` overflow) exactly when PC + n passes 0xFFFF |
| Machines.Step | crates/interpreter/src/context.rs:90 | `step`: `advance(2)`; `Successor` and `ExecOutcome` state where PC goes |
| Machines.StepCond | crates/interpreter/src/context.rs:91 | `step_cond`: `advance(4)` or `advance(2)`; `SkipOutcome` states it |
| Machines.SkipTaken | crates/interpreter/src/context.rs:31-33 | the condition of each skip (EX9E always, EXA1 never); `SkipOutcome` states PC + 4 exactly when it holds |
| Machines.Shift | crates/interpreter/src/context.rs:42-44 | 8XY6 and 8XYE; `ShiftRight`, `ShiftLeft` and `ShiftOutcome` state the result |
| Machines.DrawSprite | crates/interpreter/src/context.rs:50-60 | DXYN; `DrawRan`, `DrawFlips`, `DrawOutcome` and `DrawTwiceRestores` state the result |
| Machines.TimersAndI | crates/interpreter/src/context.rs:64-69 | FX07, FX0A, FX15, FX18, FX1E and FX29; `TimersAndIOutcome` and `SpriteAddressMissesFont` state the result |
| Machines.MemoryOp | crates/interpreter/src/context.rs:70-72 | FX33, FX55 and FX65; `BcdStore`, `DumpRan`, `LoadRan` and `DumpThenLoad` state the result |
| Machines.Dump | crates/interpreter/src/context.rs:71 | `reg_dump`'s loop after k iterations; `DumpCells` states which cells hold which registers |
| Machines.Load | crates/interpreter/src/context.rs:72 | `reg_load`'s loop after k iterations; `LoadRegs` states which registers hold which cells |
| Machines.Tick | crates/interpreter/src/context.rs:84-87 | `step_clocks`; `TicksSaturate` states that the timers count down to zero and nothing else changes |
| Machines.Ticks | crates/interpreter/src/context.rs:84-87 | n calls of `step_clocks`; `TicksCountDown` and `TicksSaturate` state their effect |
| Machines.Control | crates/interpreter/src/context.rs:25-48 | 0NNN, 00E0, 00EE, 1NNN, 2NNN, BNNN and CXNN; `ControlOutcome` states that they agree with `Refuses`, `Panics` and `Successor`, `CallThenReturn` and `ReturnNeedsStack` what calls do |
| Machines.ByteResult | crates/interpreter/src/context.rs:34-43 | the byte the nine byte operations store in Vx; `ByteOpsWriteOnlyVx`, `AddWrapsWithoutCarry` and `SubWrapsWithoutBorrow` state its wrapping |
| Machines.Exec | crates/interpreter/src/context.rs:23-72 | one decoded instruction; `ExecOutcome` states that it refuses, panics and moves PC exactly as `Refuses`, `Panics` and `Successor` say |
| Machines.StepSingle | crates/interpreter/src/context.rs:18-20 | fetch at PC and execute; `FetchAtTop` states the panic at PC 0xFFFF |
| Machines.Refuses | crates/interpreter/src/context.rs:18-72 | the independent statement of when a step refuses (FX0A; FX33 past the end of memory), compared with `Exec` by `ExecOutcome` |
| Machines.Panics | crates/interpreter/src/context.rs:18-72 | the independent statement of when a step panics (invalid words, machine-code calls, CXNN's `todo!`, an empty-stack return, a PC or I that overflows `u16`, a sprite read past the end of memory), compared with `Exec` by `ExecOutcome` |
| Machines.Successor | crates/interpreter/src/context.rs:18-72 | the independent statement of the next PC, compared with `Exec` by `ExecOutcome` |
| Machines.ControlOutcome | crates/interpreter/src/context.rs:25-48 | for the control group, the outcome refuses, panics and moves PC exactly as the independent `Refuses`, `Panics` and `Successor` say |
| Machines.SkipOutcome | crates/interpreter/src/context.rs:31-33 | the same agreement for the skips: PC + 4 when the skip is taken, PC + 2 otherwise |
| Machines.ByteOutcome | crates/interpreter/src/context.rs:34-43 | the same agreement for the byte operations |
| Machines.TimersAndIOutcome | crates/interpreter/src/context.rs:64-69 | the same agreement for the timer and I instructions; FX0A always refuses |
| Machines.BcdOutcome | crates/interpreter/src/context.rs:70 | the same agreement for FX33: it refuses exactly when I + 3 > 4096 |
| Machines.DumpOutcome | crates/interpreter/src/context.rs:71 | the same agreement for FX55: it panics exactly when I + X overflows `u16` (or PC + 2 does) |
| Machines.LoadOutcome | crates/interpreter/src/context.rs:72 | the same agreement for FX65 |
| Machines.ShiftOutcome | crates/interpreter/src/context.rs:42-44 | the same agreement for 8XY6 and 8XYE |
| Machines.SetIOutcome | crates/interpreter/src/context.rs:46 | the same agreement for ANNN |
| Machines.DrawOutcome | crates/interpreter/src/context.rs:50-60 | the same agreement for DXYN: it panics exactly when the sprite bytes run past 4096 (or PC + 2 overflows) |
| Machines.ExecOutcome | crates/interpreter/src/context.rs:18-72 | for every instruction: refuses exactly when `Refuses`, panics exactly when `Panics`, and otherwise runs with PC at `Successor` |
| Machines.JumpOffsetStaysInMemory | crates/interpreter/src/context.rs:47 | BNNN jumps to (V0 + NNN) mod 4096, always inside memory |
| Machines.FetchAtTop | crates/interpreter/src/context.rs:19 | fetching at PC 0xFFFF panics, as `read16` computes PC + 1 |
| Machines.OverlapOnlyForDraw | crates/interpreter/src/context.rs:57-58 | the open VF value of a draw affects no other instruction |
| Machines.ByteOpsWriteOnlyVx | crates/interpreter/src/context.rs:34-43 | a byte operation changes Vx (to its wrapped 8-bit result) and PC only: VF is not a carry or borrow flag |
| Machines.AddWrapsWithoutCarry | crates/interpreter/src/context.rs:40 | 8XY4 with 0xFF + 0x01 gives 0x00 and leaves VF as it was |
| Machines.SubWrapsWithoutBorrow | crates/interpreter/src/context.rs:41 | 8XY5 with 0x01 - 0x02 gives 0xFF and leaves VF as it was |
| Machines.ShiftRight | crates/interpreter/src/context.rs:42 | 8XY6 ignores Y, halves Vx and puts its old low bit in VF; nothing else but PC changes |
| Machines.HalveBits | crates/interpreter/src/context.rs:42 | `>> 1` halves a byte and `& 1` is its low bit |
| Machines.ShiftLeft | crates/interpreter/src/context.rs:44 | 8XYE ignores Y, doubles Vx mod 256 and puts `Vx & 0x80` (0x80 or 0) in VF; nothing else but PC changes |
| Machines.DoubleBits | crates/interpreter/src/context.rs:44 | `<< 1` doubles a byte mod 256 and `& 0x80` is 0x80 exactly for bytes of at least 0x80 |
| Machines.CallThenReturn | crates/interpreter/src/context.rs:28-30 | 2NNN jumps to NNN, and a following 00EE returns to the instruction after the call with the stack as before |
| Machines.ReturnNeedsStack | crates/interpreter/src/context.rs:28 | 00EE on an empty stack panics |
| Machines.SpriteAddressMissesFont | crates/interpreter/src/context.rs:69 | FX29 sets I to 5 * Vx from address 0, so for a digit the five bytes end before the font loaded at 0x050 |
| Machines.CountDownsSaturate | crates/interpreter/src/context.rs:85-86 | n saturating decrements take a timer down by n, stopping at zero |
| Machines.TicksCountDown | crates/interpreter/src/context.rs:84-87 | n calls of `step_clocks` count each timer down n times and change no other register |
| Machines.TicksSaturate | crates/interpreter/src/context.rs:84-87 | after n calls of `step_clocks`, each timer is max(t - n, 0) and everything else is unchanged |
| Machines.Decrement | crates/interpreter/src/context.rs:85 | a non-zero byte minus one does not wrap |
| Machines.BcdDigits | crates/interpreter/src/context.rs:94 | `bcd(b)` is three decimal digits (hundreds at most 2) whose value is b |
| Machines.BcdOf123 | crates/interpreter/src/context.rs:95 | `test_bcd`: bcd(123) is [1, 2, 3] |
| Machines.BcdStore | crates/interpreter/src/context.rs:70 | FX33 refuses exactly when I + 3 > 4096; otherwise it stores the digits of Vx at I ..< I + 3, changes no other cell and no register but PC |
| Machines.SlotsDistinct | crates/interpreter/src/context.rs:71-72 | the sixteen cells of `reg_dump`/`reg_load` are distinct |
| Machines.SlotOffset | crates/interpreter/src/context.rs:71-72 | the cell of Vk lies k past I (mod 4096) |
| Machines.NthDistinct | crates/interpreter/src/context.rs:71-72 | `V::iter()` yields distinct registers |
| Machines.DumpCells | crates/interpreter/src/context.rs:71 | after c iterations of `reg_dump`'s loop, the cell of Vk holds Vk for every k < c, and no other cell changed |
| Machines.LoadRegs | crates/interpreter/src/context.rs:72 | after c iterations of `reg_load`'s loop, Vk holds the cell of Vk for every k < c, and Vc ..= VF are unchanged |
| Machines.DumpRan | crates/interpreter/src/context.rs:71 | a completed FX55 had I + X within `u16`, and left memory as the whole loop does |
| Machines.LoadRan | crates/interpreter/src/context.rs:72 | FX65 with I + X within `u16` completes and leaves the registers as the whole loop does |
| Machines.DumpThenLoad | crates/interpreter/src/context.rs:71-72 | FX55 then FX65 with the same I restores V0 ..= VX, whatever happened to the registers in between |
| Machines.ClearDarkens | crates/interpreter/src/context.rs:27 | 00E0 darkens every pixel, leaves memory below the screen and every register but PC alone |
| Machines.DrawRan | crates/interpreter/src/context.rs:50-60 | DXYN with its sprite inside memory draws the N bytes at I at (Vx, Vy), stores the open value in VF and steps |
| Machines.DrawFlips | crates/interpreter/src/context.rs:50-60 | DXYN flips exactly the on-grid pixels its set bits cover, and leaves memory below the screen and every register but VF and PC alone |
| Machines.DrawTwiceRestores | crates/interpreter/src/context.rs:50-60 | the same DXYN twice restores the screen, when the sprite lies below the screen and neither coordinate is VF |
| Contexts.Context.constructor | crates/interpreter/src/context.rs:13 | `Context::new()`: default registers and zeroed memory |
| Contexts.Context.Screen | crates/interpreter/src/context.rs:15 | a screen object over the context's own memory bytes, showing its last 256 bytes |
| Contexts.Context.Advance | crates/interpreter/src/context.rs:89 | `pc += n`: runs as `Machines.Advance` (panics past 0xFFFF) |
| Contexts.Context.Step | crates/interpreter/src/context.rs:90 | `advance(2)` |
| Contexts.Context.StepCond | crates/interpreter/src/context.rs:91 | `advance(4)` when skipping, `advance(2)` otherwise |
| Contexts.Context.StepClocks | crates/interpreter/src/context.rs:84-87 | both timers count down by one, stopping at zero (`TicksSaturate`); nothing else changes |
| Contexts.Context.TryStepSingle | crates/interpreter/src/context.rs:18-20 | the returned flag, the panic and the new state are those of `StepSingle` on the old state, so `ExecOutcome` describes them |
| Contexts.Context.Execute | crates/interpreter/src/context.rs:23-72 | each visitor method changes the context as `Exec` says |
| Contexts.Context.ExecuteControlOps | crates/interpreter/src/context.rs:25-48 | the same for the control group |
| Contexts.Context.ExecuteRegisterOps | crates/interpreter/src/context.rs:31-45 | the same for the skips and the register operations |
| Contexts.Context.ExecuteOtherOps | crates/interpreter/src/context.rs:50-72 | the same for DXYN and the E and F groups |
| Contexts.Context.ExecuteControl | crates/interpreter/src/context.rs:25-48 | the state changes as `Control` says |
| Contexts.Context.ExecuteSkip | crates/interpreter/src/context.rs:31-33 | `step_cond` of the skip's condition |
| Contexts.Context.ExecuteByte | crates/interpreter/src/context.rs:34-43 | Vx gets `ByteResult`, then `step` |
| Contexts.Context.ExecuteShift | crates/interpreter/src/context.rs:42-44 | the state changes as `Shift` says |
| Contexts.Context.ExecuteSetI | crates/interpreter/src/context.rs:46 | I gets NNN, then `step` |
| Contexts.Context.ExecuteDraw | crates/interpreter/src/context.rs:50-60 | the state changes as `DrawSprite` says, through the screen object that shares the memory's bytes |
| Contexts.Context.ExecuteTimers | crates/interpreter/src/context.rs:64-67 | FX07, FX0A, FX15 and FX18 change the state as `TimersAndI` says |
| Contexts.Context.ExecuteAddI | crates/interpreter/src/context.rs:68 | FX1E as `TimersAndI` says (panics when I + Vx overflows `u16`) |
| Contexts.Context.ExecuteSpriteI | crates/interpreter/src/context.rs:69 | FX29 as `TimersAndI` says |
| Contexts.Context.ExecuteBcd | crates/interpreter/src/context.rs:70 | FX33 as `MemoryOp` says (see `BcdStore`) |
| Contexts.Context.ExecuteDump | crates/interpreter/src/context.rs:71 | the loop writes what `MemoryOp` says (see `DumpCells`) |
| Contexts.Context.ExecuteLoad | crates/interpreter/src/context.rs:72 | the loop loads what `MemoryOp` says (see `LoadRegs`) |
| Contexts.Context.TryStepMany | crates/interpreter/src/context.rs:77-82 | at most `steps` instructions run; the state is that of running `count` steps; fewer than `steps` only when the next instruction refuses; a panic ends the run |
| Contexts.Run | crates/interpreter/src/context.rs:77-82 | several steps in a row, stopping at the first that does not run; `TryStepMany` is proved against it |
| Contexts.OverlapOnlyForRefusal | crates/interpreter/src/context.rs:79 | whether a step refuses does not depend on the open VF value |
| ThreadLocals.Created | crates/interpreter/src/tls.rs:31-35 | the context `create_context` builds: PC 0x200, the program at 0x200, the font at 0x050, every other byte and register zero |
| ThreadLocals.Tls.constructor | crates/interpreter/src/tls.rs:93-100 | no contexts, an empty free list, the first tick due now |
| ThreadLocals.Tls.CreateContext | crates/interpreter/src/tls.rs:31-48 | a program that does not fit panics and changes nothing; otherwise the new context is `Created(program)`, in the oldest freed slot when more than 1000 ids are free, else in a new slot at the end; the new context, its memory and its bytes are fresh objects that alias nothing else (it owns its memory); the table stays valid |
| ThreadLocals.Tls.DestroyContext | crates/interpreter/src/tls.rs:51-58 | panics exactly when the id is not live; otherwise empties the slot and queues the id at the back of the free list |
| ThreadLocals.Tls.Build | crates/interpreter/src/tls.rs:32-35 | the fresh context is `Created(program)`; it fails exactly when the program does not fit |
| ThreadLocals.Tls.StepAll | crates/interpreter/src/tls.rs:71-74 | every live context takes one `TickWith` tick; the table stays valid |
| ThreadLocals.Tls.Update | crates/interpreter/src/tls.rs:61-78 | runs one tick per 16 ms from the next due time up to now (the count is stated in closed form), moves the due time on by that much, and advances every live context by that many ticks; the table is unchanged |
| ThreadLocals.TickContext | crates/interpreter/src/tls.rs:72-73 | `try_step_many(8)` then `step_clocks` on one context, as `TickWith` says |
| ThreadLocals.TickWith | crates/interpreter/src/tls.rs:72-73 | one tick of one context: at most eight steps, stopping early only at a refusal, then the timers; `TickContext` is proved against it |
| ThreadLocals.TicksWith | crates/interpreter/src/tls.rs:70-76 | successive ticks; `TicksWithSnoc` states that one more tick continues from the earlier ones |
| ThreadLocals.TicksWithSnoc | crates/interpreter/src/tls.rs:70-76 | one more tick continues from where the earlier ticks left off |
| ThreadLocals.TickCount | crates/interpreter/src/tls.rs:70-75 | the loop runs (now - start) / 16 + 1 times when now >= start, and not at all otherwise |

## Left out

- Contexts.Context.ExecuteDraw: the value DXYN stores in VF is left open (an arbitrary byte, carried as the `overlap` parameter of `Machines.Exec`). `draw_sprite` in `screen.rs` returns `()`, yet `context.rs:57-58` stores its result in VF, so the two files do not agree on a collision flag. Every other effect of DXYN is specified.
- Contexts.Context.TryStepSingle, Contexts.Context.Execute and Contexts.Context.TryStepMany: after a panic nothing is said of the state. The source unwinds at that point, having possibly done part of the work, such as some of `reg_dump`'s writes.
- `u16` overflow (`pc + 2`, `pc + 4`, `i + Vx`, `i + k`, V0 + NNN, `read16` at 0xFFFF) is modelled as a panic, as in a debug build. Release-build wrap-around is not modelled.
- CXNN (`set_v_rand_mask`) panics with `todo!` in the source, and the model panics too. The random-number host call behind it is not modelled.
- The keyboard: EX9E always skips, EXA1 never skips and FX0A always refuses, as the code has it. Real key state is not modelled.
- Sound: `sound_playing` is carried in the registers but nothing updates it. Sound output, rendering and the whole `Syscalls` interface (`syscalls.rs`) are not part of this model.
- `Instant` and the tls clock become an integer count of milliseconds passed to `Tls.Update`, and a tick is 1000 / 60 = 16 ms, as the integer division in the source gives.
- ThreadLocals.Tls.Update: the `MAX_STEP` clamp at `tls.rs:67` is not modelled, because `max(next_step, next_step - 1 s)` leaves `next_step` as it was.
- `thread_local!`, `RefCell` and the `SYSCALLS` slot: the table is one `Tls` object and `set_syscalls_static` is not modelled. `ContextId` is a plain number.
- `Context<TlsSyscalls>`: tls.rs names a generic `Context`, while `context.rs` as shown is not generic. The model uses the `Context` of `context.rs`.
- ThreadLocals.Tls.StepAll and ThreadLocals.Tls.Update: they state each live context's new state given the VF values its draws left (the ghost `traces`), and do not fix those values.
- Memories.Memory4K.CopyFromIo: the `io::Read` source is an in-memory byte sequence that hands out at most `chunk` bytes per `read`, for any chunk size of at least 1. Reader I/O errors and interrupted reads are not modelled; the only error is `FILE_TOO_LARGE`.
- Memories.Memory4K.Read16: it requires an address below 0xFFFF, because at 0xFFFF the source's `addr.0 + 1` panics. `Machines.StepSingle` reports that case as a panic (`FetchAtTop`).
- Memory is modelled as 4096 bytes rather than 512 `u64` words. `as_words_*` and `as_qwords_*` are not modelled; their only use in the core is the screen view, which is modelled over the bytes.
- `get_pixel` off the grid returns `false`: its `debug_assert!` is dropped. `get_pixel` is on no step path; the instructions use `try_get_pixel`.
- `Nibble`'s `Debug` and `LowerHex` are not modelled: the disassembler uses only `Display` (for DXYN's height) and `UpperHex` (through `V`'s `Display`).
- `V::iter` is defined outside the files of this model. `RegisterIndex.Iter` gives it the meaning its use in `context.rs:71-72` needs: V0 ..= VF in order.
- `Op` derives (`Clone`, `Ord`, `Hash`, ...) and the `Addr`/`Registers` derives other than `Default` and equality are not modelled.
