/** Sizes, fixed addresses and the built-in hexadecimal font of the machine
    (the definitions at the top of Chip8.h). */
module Chip8Constants {

  /** The unsigned integer types of the source, as ranges of int. Wrap-around
      is written out with % wherever the source relies on it. */
  type uint8 = x: int | 0 <= x < 0x100
  type uint16 = x: int | 0 <= x < 0x1_0000
  type uint32 = x: int | 0 <= x < 0x1_0000_0000

  const NUM_REGISTERS := 16
  const MEM_SIZE := 4096
  const DISPLAY_WIDTH := 64
  const DISPLAY_HEIGHT := 32
  const KEYPAD_SIZE := 16

  /** The display is one flat row-major buffer of 64 x 32 cells. */
  const DISPLAY_SIZE := DISPLAY_WIDTH * DISPLAY_HEIGHT

  const FONTSET_START_ADDR := 0x50
  const ROM_START_ADDR := 0x200

  const FONTSET_SIZE := 80
  /** Bytes per glyph: every glyph of the table below is five rows high. */
  const FONTSET_CHAR_SIZE := 5

  /** Register VF, the flag register. */
  const FLAG := 0xF

  /** Bytes available to a program image, from ROM_START_ADDR to the end of memory. */
  const ROM_CAPACITY := MEM_SIZE - ROM_START_ADDR

  /** One byte per glyph row, bit 7 being the leftmost pixel; written glyph by
      glyph, in the order of the digits 0 to F. */
  const FONTSET: seq<uint8> :=
      [0xF0, 0x90, 0x90, 0x90, 0xF0]   // 0
    + [0x20, 0x60, 0x20, 0x20, 0x70]   // 1
    + [0xF0, 0x10, 0xF0, 0x80, 0xF0]   // 2
    + [0xF0, 0x10, 0xF0, 0x10, 0xF0]   // 3
    + [0x90, 0x90, 0xF0, 0x10, 0x10]   // 4
    + [0xF0, 0x80, 0xF0, 0x10, 0xF0]   // 5
    + [0xF0, 0x80, 0xF0, 0x90, 0xF0]   // 6
    + [0xF0, 0x10, 0x20, 0x40, 0x40]   // 7
    + [0xF0, 0x90, 0xF0, 0x90, 0xF0]   // 8
    + [0xF0, 0x90, 0xF0, 0x10, 0xF0]   // 9
    + [0xF0, 0x90, 0xF0, 0x90, 0x90]   // A
    + [0xE0, 0x90, 0xE0, 0x90, 0xE0]   // B
    + [0xF0, 0x80, 0x80, 0x80, 0xF0]   // C
    + [0xE0, 0x90, 0x90, 0x90, 0xE0]   // D
    + [0xF0, 0x80, 0xF0, 0x80, 0xF0]   // E
    + [0xF0, 0x80, 0xF0, 0x80, 0x80]   // F

  /** The rows of the glyph for hexadecimal digit d. */
  function Glyph(d: nat): (g: seq<uint8>)
    requires d < 16
    ensures |g| == FONTSET_CHAR_SIZE
    ensures FONTSET_CHAR_SIZE * d + FONTSET_CHAR_SIZE <= FONTSET_SIZE
  {
    FONTSET[FONTSET_CHAR_SIZE * d .. FONTSET_CHAR_SIZE * d + FONTSET_CHAR_SIZE]
  }

  /** The table holds sixteen glyphs of FONTSET_CHAR_SIZE bytes each, and the
      glyph of digit d is entries 5d .. 5d+4. */
  lemma {:induction false} FontsetLayout()
    ensures |FONTSET| == FONTSET_SIZE == 16 * FONTSET_CHAR_SIZE
    ensures FONTSET == Glyph(0) + Glyph(1) + Glyph(2) + Glyph(3) + Glyph(4) + Glyph(5) + Glyph(6) + Glyph(7)
                     + Glyph(8) + Glyph(9) + Glyph(10) + Glyph(11) + Glyph(12) + Glyph(13) + Glyph(14) + Glyph(15)
  {
  }

  /** No glyph row uses its low nibble, so every glyph is at most four pixels wide. */
  lemma GlyphsAreNarrow()
    ensures forall i :: 0 <= i < FONTSET_SIZE ==> FONTSET[i] % 16 == 0
  {
  }

  /** The font lies strictly below the program area, and the program area runs
      from ROM_START_ADDR to the end of memory. */
  lemma MemoryMap()
    ensures FONTSET_START_ADDR + FONTSET_SIZE <= ROM_START_ADDR
    ensures ROM_CAPACITY == 3584
    ensures DISPLAY_SIZE == 2048
  {
  }
}
