/**
 * Instruction words and their decoding. Decode follows the dispatch of
 * chip8_exec and its helpers: the two full words 00E0 and 00EE first, then
 * the top nibble (opcode & 0xF000), with family 8 split on the low nibble and
 * families E and F split on the low byte. Every word no branch matches
 * decodes to Unknown.
 */
module Opcodes {
  import opened Config

  /** A 4-bit field: a register number or a sprite height. */
  type Nibble = n: int | 0 <= n < 0x10
  /** A 12-bit address operand. */
  type Addr = a: int | 0 <= a < 0x1000

  /*
   * The fields of a word. The source extracts them with shifts and masks;
   * on an unsigned word these are the divisions and remainders below.
   */

  /** opcode >> 12, the family */
  function Family(w: Word): Nibble {
    w / 0x1000
  }

  /** (opcode >> 8) & 0x000F */
  function X(w: Word): Nibble {
    w / 0x100 % 0x10
  }

  /** (opcode >> 4) & 0x000F */
  function Y(w: Word): Nibble {
    w / 0x10 % 0x10
  }

  /** opcode & 0x000F */
  function N(w: Word): Nibble {
    w % 0x10
  }

  /** opcode & 0x00FF */
  function KK(w: Word): Byte {
    w % 0x100
  }

  /** opcode & 0x0FFF */
  function NNN(w: Word): Addr {
    w % 0x1000
  }

  /** The instructions, grouped as the dispatch groups them. */
  datatype Instr =
    | Cls                                  // 00E0
    | Ret                                  // 00EE
    | Jp(nnn: Addr)                        // 1nnn
    | Call(nnn: Addr)                      // 2nnn
    | SeByte(x: Nibble, kk: Byte)          // 3xkk
    | SneByte(x: Nibble, kk: Byte)         // 4xkk
    | SeReg(x: Nibble, y: Nibble)          // 5xyN
    | LdByte(x: Nibble, kk: Byte)          // 6xkk
    | AddByte(x: Nibble, kk: Byte)         // 7xkk
    | Alu(op: AluOp, x: Nibble, y: Nibble) // 8xyN
    | SneReg(x: Nibble, y: Nibble)         // 9xyN
    | LdI(nnn: Addr)                       // Annn
    | JpV0(nnn: Addr)                      // Bnnn
    | Rnd(x: Nibble, kk: Byte)             // Cxkk
    | Drw(x: Nibble, y: Nibble, n: Nibble) // Dxyn
    | Key(kop: KeyOp, x: Nibble)           // ExKK
    | Misc(mop: MiscOp, x: Nibble)         // FxKK
    | Unknown(w: Word)                     // every other word

  /** The low nibble of 8xyN: 0-7 and E. */
  datatype AluOp = Ld | Or | And | Xor | Add | Sub | Shr | Subn | Shl

  /** The low byte of ExKK: 9E and A1. */
  datatype KeyOp = Skp | Sknp

  /** The low byte of FxKK: 07, 0A, 15, 18, 1E, 29, 33, 55 and 65. */
  datatype MiscOp = LdVxDt | LdVxK | LdDtVx | LdStVx | AddI | LdF | LdB | Store | Load

  /** chip8_exec: the two fixed words, then the families. */
  function Decode(w: Word): Instr {
    if w == 0x00E0 then Cls
    else if w == 0x00EE then Ret
    else DecodeExtended(w)
  }

  /** chip8_exec_extended: dispatch on the top nibble (opcode & 0xF000, see FamilyMask). */
  function DecodeExtended(w: Word): Instr {
    var family := Family(w);
    if family == 0x1 then Jp(NNN(w))
    else if family == 0x2 then Call(NNN(w))
    else if family == 0x3 then SeByte(X(w), KK(w))
    else if family == 0x4 then SneByte(X(w), KK(w))
    else if family == 0x5 then SeReg(X(w), Y(w))
    else if family == 0x6 then LdByte(X(w), KK(w))
    else if family == 0x7 then AddByte(X(w), KK(w))
    else if family == 0x8 then DecodePrefix8(w)
    else if family == 0x9 then SneReg(X(w), Y(w))
    else if family == 0xA then LdI(NNN(w))
    else if family == 0xB then JpV0(NNN(w))
    else if family == 0xC then Rnd(X(w), KK(w))
    else if family == 0xD then Drw(X(w), Y(w), N(w))
    else if family == 0xE then DecodePrefixE(w)
    else if family == 0xF then DecodePrefixF(w)
    else Unknown(w)
  }

  /** chip8_exec_extended_prefix_8: dispatch on the low nibble. */
  function DecodePrefix8(w: Word): Instr {
    var x, y, last := X(w), Y(w), N(w);
    if last == 0x0 then Alu(Ld, x, y)
    else if last == 0x1 then Alu(Or, x, y)
    else if last == 0x2 then Alu(And, x, y)
    else if last == 0x3 then Alu(Xor, x, y)
    else if last == 0x4 then Alu(Add, x, y)
    else if last == 0x5 then Alu(Sub, x, y)
    else if last == 0x6 then Alu(Shr, x, y)
    else if last == 0x7 then Alu(Subn, x, y)
    else if last == 0xE then Alu(Shl, x, y)
    else Unknown(w)
  }

  /** The keyboard group of chip8_exec_extended: dispatch on the low byte. */
  function DecodePrefixE(w: Word): Instr {
    var low := KK(w);
    if low == 0x9E then Key(Skp, X(w))
    else if low == 0xA1 then Key(Sknp, X(w))
    else Unknown(w)
  }

  /** chip8_exec_extended_prefix_F: dispatch on the low byte. */
  function DecodePrefixF(w: Word): Instr {
    var x, low := X(w), KK(w);
    if low == 0x07 then Misc(LdVxDt, x)
    else if low == 0x0A then Misc(LdVxK, x)
    else if low == 0x15 then Misc(LdDtVx, x)
    else if low == 0x18 then Misc(LdStVx, x)
    else if low == 0x1E then Misc(AddI, x)
    else if low == 0x29 then Misc(LdF, x)
    else if low == 0x33 then Misc(LdB, x)
    else if low == 0x55 then Misc(Store, x)
    else if low == 0x65 then Misc(Load, x)
    else Unknown(w)
  }

  /**
   * The words no branch of the dispatch recognises, described by their
   * fields: top nibble 0 other than 00E0 and 00EE, 8xyN with N outside 0-7
   * and E, ExKK with KK outside 9E and A1, FxKK with KK outside the nine
   * handled bytes.
   */
  predicate Unrecognised(w: Word) {
    var f, n, kk := Family(w), N(w), KK(w);
    (f == 0x0 && w != 0x00E0 && w != 0x00EE)
    || (f == 0x8 && 0x8 <= n && n != 0xE)
    || (f == 0xE && kk != 0x9E && kk != 0xA1)
    || (f == 0xF && kk !in {0x07, 0x0A, 0x15, 0x18, 0x1E, 0x29, 0x33, 0x55, 0x65})
  }

  /** The family test of the dispatch, opcode & 0xF000 on the unsigned short, is a test of Family. */
  lemma FamilyMask(b: bv16)
    ensures (b & 0xF000) as int == Family(b as int) * 0x1000
  {
    assert Family(b as int) == (b >> 12) as int;
  }

  /** The fields split the word: four nibbles, with kk the low two and nnn the low three. */
  lemma FieldsReassemble(w: Word)
    ensures w == Family(w) * 0x1000 + X(w) * 0x100 + Y(w) * 0x10 + N(w)
    ensures KK(w) == Y(w) * 0x10 + N(w)
    ensures NNN(w) == X(w) * 0x100 + KK(w)
  {
  }

  /** A word decodes to Unknown exactly when no branch recognises it, and Unknown keeps the word. */
  lemma DecodeUnknownIff(w: Word)
    ensures Decode(w).Unknown? <==> Unrecognised(w)
    ensures Decode(w).Unknown? ==> Decode(w).w == w
  {
  }

  /** 5xyN and 9xyN mean the same instruction for every low nibble N. */
  lemma RegisterSkipsIgnoreLowNibble(w: Word)
    requires Family(w) == 0x5 || Family(w) == 0x9
    ensures Decode(w) == Decode(w - N(w))
  {
    var q := w / 0x10;
    assert w == 0x10 * q + N(w);
    var w' := w - N(w);
    assert w' == 0x10 * q && w' / 0x10 == q;
    assert w' / 0x100 == w / 0x100 && w' / 0x1000 == w / 0x1000;
    assert Family(w') == Family(w) && X(w') == X(w) && Y(w') == Y(w);
  }
}
