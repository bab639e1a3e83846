/** Build-time constants of the interpreter (the conventional CHIP-8 values). */
module Config {
  /** An unsigned char: a memory cell, a data register, a timer. */
  type Byte = b: int | 0 <= b < 0x100
  /** An unsigned short: I, PC, a return address, an instruction word. */
  type Word = w: int | 0 <= w < 0x1_0000

  /** Size of the flat byte memory. */
  const MemorySize: nat := 4096
  /** Address at which a program image is copied by Load. */
  const LoadAddress: nat := 0x200
  /** Display width and height in pixels. */
  const Width: nat := 64
  const Height: nat := 32
  /** Number of general data registers V0..VF. */
  const DataRegisters: nat := 16
  /** Number of keys on the hexadecimal keypad. */
  const KeyCount: nat := 16
  /** Address of the built-in font and the height of one glyph. */
  const FontBase: nat := 0
  const GlyphHeight: nat := 5
}
