/**
 * The machine record of struct chip8 as a value, and the effect of each
 * instruction on it: the reference against which the in-place engine in
 * module Engine is proved. Every register and memory cell is an unsigned
 * char (Byte) and I and PC are unsigned shorts (Word). The C code computes
 * in int and stores the result into a char or a short; the model computes on
 * int and applies the truncation of that store, Low8 or Low16, wherever a
 * result can leave the range. The bitwise operators are taken on bv8.
 */
module Semantics {
  import opened Config
  import opened Screen
  import opened Opcodes

  /**
   * The 80-byte built-in font, glyphs 0-F of five rows each, as the table
   * stands in the source. It is written glyph by glyph so that the verifier
   * can read a byte at a fixed address.
   */
  const Font: seq<Byte> :=
      [0xF0, 0x90, 0x90, 0x90, 0xF0] // 0
    + [0x20, 0x60, 0x20, 0x20, 0x70] // 1
    + [0xF0, 0x10, 0xF0, 0x80, 0xF0] // 2
    + [0xF0, 0x10, 0xF0, 0x10, 0xF0] // 3
    + [0xF0, 0x10, 0xF0, 0x10, 0xF0] // 4 (the same rows as 3)
    + [0xF0, 0x80, 0xF0, 0x10, 0xF0] // 5
    + [0xF0, 0x80, 0xF0, 0x90, 0xF0] // 6
    + [0xF0, 0x10, 0x20, 0x40, 0x40] // 7
    + [0xF0, 0x90, 0xF0, 0x90, 0xF0] // 8
    + [0xF0, 0x90, 0xF0, 0x10, 0xF0] // 9
    + [0xF0, 0x90, 0xF0, 0x90, 0x90] // A
    + [0xE0, 0x90, 0xE0, 0x90, 0xE0] // B
    + [0xF0, 0x80, 0x80, 0x80, 0xF0] // C
    + [0xE0, 0x90, 0x90, 0x90, 0xE0] // D
    + [0xF0, 0x80, 0xF0, 0x80, 0xF0] // E
    + [0xF0, 0x80, 0xF0, 0x80, 0x80] // F

  /** Number of bytes of the font. */
  const FontSize: nat := 80

  /** The flag register VF. */
  const VF: Nibble := 0xF

  /**
   * The machine: memory, V0..VF, I, PC, the delay and sound timers, the
   * return stack (its length plays the role of SP), the display and the
   * keypad.
   */
  datatype State = State(
    memory: seq<Byte>,
    v: seq<Byte>,
    i: Word,
    pc: Word,
    dt: Byte,
    st: Byte,
    stack: seq<Word>,
    pixels: Grid,
    keys: seq<bool>)

  predicate WellFormed(s: State) {
    |s.memory| == MemorySize && |s.v| == DataRegisters && IsGrid(s.pixels) && |s.keys| == KeyCount
  }

  /** An int stored into an unsigned char: its low byte. */
  function Low8(n: int): Byte {
    n % 0x100
  }

  /** An int stored into an unsigned short: its low 16 bits. */
  function Low16(n: int): Word {
    n % 0x1_0000
  }

  /**
   * The truncations keep a value that fits and differ from the computed value
   * by a multiple of the width; a short stored into a char keeps the low byte.
   */
  lemma Truncations(n: int)
    ensures 0 <= n < 0x100 ==> Low8(n) == n
    ensures n == Low8(n) + 0x100 * (n / 0x100)
    ensures 0 <= n < 0x1_0000 ==> Low16(n) == n
    ensures n == Low16(n) + 0x1_0000 * (n / 0x1_0000)
    ensures Low8(Low16(n)) == Low8(n)
  {
    LowByteOfShort(n);
  }

  /** The low byte of the low 16 bits is the low byte. */
  lemma LowByteOfShort(n: int)
    ensures Low8(Low16(n)) == Low8(n)
  {
    var r := Low16(n);
    assert n == 0x1_0000 * (n / 0x1_0000) + r;
    assert r == 0x100 * (r / 0x100) + r % 0x100;
    var k := n / 0x1_0000 * 0x100 + r / 0x100;
    assert n == 0x100 * k + r % 0x100;
  }

  /** The bitwise operators |, & and ^ on two bytes. */
  function BitOr(a: Byte, b: Byte): Byte {
    ((a as bv8) | (b as bv8)) as int
  }

  function BitAnd(a: Byte, b: Byte): Byte {
    ((a as bv8) & (b as bv8)) as int
  }

  function BitXor(a: Byte, b: Byte): Byte {
    ((a as bv8) ^ (b as bv8)) as int
  }

  /** Register r set to b, everything else as it was. */
  function SetV(s: State, r: Nibble, b: Byte): (t: State)
    requires WellFormed(s)
    ensures WellFormed(t) && t.v[r] == b
    ensures forall q | 0 <= q < DataRegisters && q != r :: t.v[q] == s.v[q]
    ensures t == s.(v := t.v)
  {
    s.(v := s.v[r := b])
  }

  /** The conditional skip: PC += 2 on an unsigned short when taken. */
  function SkipIf(s: State, taken: bool): (t: State)
    requires WellFormed(s)
    ensures WellFormed(t)
  {
    if taken then s.(pc := Low16(s.pc as int + 2)) else s
  }

  /**
   * The in-range conditions of each instruction's array accesses: a non-empty
   * stack for RET, the sprite bytes read through the pointer at I inside
   * memory for DRW,
   * a key index below 16 for SKP and SKNP, and the addresses written or read
   * by Fx33, Fx55 and Fx65 inside memory.
   */
  predicate Defined(s: State, instr: Instr)
    requires WellFormed(s)
  {
    match instr
    case Ret => |s.stack| > 0
    case Drw(_, _, n) => s.i + n <= MemorySize
    case Key(_, x) => s.v[x] < KeyCount
    case Misc(op, x) => MiscDefined(s, op, x)
    case _ => true
  }

  predicate MiscDefined(s: State, op: MiscOp, x: Nibble)
    requires WellFormed(s)
  {
    match op
    case LdB => s.i + 2 < MemorySize
    case Store => s.i + x < MemorySize
    case Load => s.i + x < MemorySize
    case _ => true
  }

  /** The sprite rows DRW reads: n bytes from I. */
  function SpriteAt(s: State, n: Nibble): (rows: seq<Byte>)
    requires WellFormed(s) && s.i + n <= MemorySize
    ensures |rows| == n
    ensures forall k | 0 <= k < n :: rows[k] == s.memory[s.i + k]
  {
    s.memory[s.i .. s.i + n]
  }

  /** Fx33: the hundreds, tens and units digits of Vx at I, I+1 and I+2. */
  function BcdBlock(s: State, x: Nibble): (m: seq<Byte>)
    requires WellFormed(s) && s.i + 2 < MemorySize
    ensures |m| == MemorySize
  {
    var b, a := s.v[x], s.i;
    s.memory[a := b / 100][a + 1 := b / 10 % 10][a + 2 := b % 10]
  }

  /** Fx55: memory[I + r] := V[r] for every r <= x. */
  function StoreBlock(s: State, x: Nibble): (m: seq<Byte>)
    requires WellFormed(s) && s.i + x < MemorySize
    ensures |m| == MemorySize
  {
    seq(MemorySize, a requires 0 <= a < MemorySize =>
      if s.i <= a <= s.i + x then s.v[a - s.i] else s.memory[a])
  }

  /** Fx65: V[r] := memory[I + r] for every r <= x. */
  function LoadBlock(s: State, x: Nibble): (v: seq<Byte>)
    requires WellFormed(s) && s.i + x < MemorySize
    ensures |v| == DataRegisters
  {
    seq(DataRegisters, r requires 0 <= r < DataRegisters =>
      if r <= x then s.memory[s.i + r] else s.v[r])
  }

  /**
   * One instruction. key is the virtual key the key wait of Fx0A returned
   * (-1 when it failed); rnd is the value rand() returned for Cxkk.
   */
  function Apply(s: State, instr: Instr, key: int, rnd: nat): (t: State)
    requires WellFormed(s) && Defined(s, instr)
    ensures WellFormed(t)
  {
    match instr
    case Cls => s.(pixels := Blank())
    case Ret => s.(pc := s.stack[|s.stack| - 1], stack := s.stack[..|s.stack| - 1])
    case Jp(nnn) => s.(pc := nnn)
    case Call(nnn) => s.(stack := s.stack + [s.pc], pc := nnn)
    case SeByte(x, kk) => SkipIf(s, s.v[x] == kk)
    case SneByte(x, kk) => SkipIf(s, s.v[x] != kk)
    case SeReg(x, y) => SkipIf(s, s.v[x] == s.v[y])
    case LdByte(x, kk) => SetV(s, x, kk)
    case AddByte(x, kk) => SetV(s, x, Low8(s.v[x] as int + kk))
    case Alu(op, x, y) => ApplyAlu(s, op, x, y)
    case SneReg(x, y) => SkipIf(s, s.v[x] != s.v[y])
    case LdI(nnn) => s.(i := nnn)
    case JpV0(nnn) => s.(pc := Low16(s.v[0] as int + nnn))
    case Rnd(x, kk) => SetV(s, x, BitAnd(rnd % 255, kk))
    case Drw(x, y, n) => Draw(s, x, y, n)
    case Key(op, x) => ApplyKey(s, op, x)
    case Misc(op, x) => ApplyMisc(s, op, x, key)
    case Unknown(_) => s
  }

  /** Dxyn: VF := the collision flag of drawing the n bytes at I at (Vx, Vy). */
  function Draw(s: State, x: Nibble, y: Nibble, n: Nibble): (t: State)
    requires WellFormed(s) && s.i + n <= MemorySize
    ensures WellFormed(t)
  {
    var rows := SpriteAt(s, n);
    var hit := Collides(s.pixels, s.v[x], s.v[y], rows);
    SetV(s.(pixels := Drawn(s.pixels, s.v[x], s.v[y], rows)), VF, if hit then 1 else 0)
  }

  /** Ex9E and ExA1: skip when key Vx is down, or up. */
  function ApplyKey(s: State, op: KeyOp, x: Nibble): (t: State)
    requires WellFormed(s) && s.v[x] < KeyCount
    ensures WellFormed(t)
  {
    var down := s.keys[s.v[x]];
    match op
    case Skp => SkipIf(s, down)
    case Sknp => SkipIf(s, !down)
  }

  /** chip8_exec_extended_prefix_8. */
  function ApplyAlu(s: State, op: AluOp, x: Nibble, y: Nibble): (t: State)
    requires WellFormed(s)
    ensures WellFormed(t)
  {
    match op
    case Ld => SetV(s, x, s.v[y])
    case Or => SetV(s, x, BitOr(s.v[x], s.v[y]))
    case And => SetV(s, x, BitAnd(s.v[x], s.v[y]))
    case Xor => SetV(s, x, BitXor(s.v[x], s.v[y]))
    case Add => AddRegs(s, x, y)
    case Sub => SubRegs(s, x, y)
    case Shr => ShiftRight(s, x)
    case Subn => SubRegsReversed(s, x, y)
    case Shl => ShiftLeft(s, x)
  }

  /**
   * 8xy4: the sum is taken before VF is written, and its low byte is
   * stored.
   */
  function AddRegs(s: State, x: Nibble, y: Nibble): (t: State)
    requires WellFormed(s)
    ensures WellFormed(t)
  {
    var sum := s.v[x] as int + s.v[y];
    var f := SetV(s, VF, if sum > 0xFF then 1 else 0);
    SetV(f, x, Low8(sum))
  }

  /**
   * 8xy5: VF is cleared first, and the comparison and the subtraction read
   * the registers after that.
   */
  function SubRegs(s: State, x: Nibble, y: Nibble): (t: State)
    requires WellFormed(s)
    ensures WellFormed(t)
  {
    var z := SetV(s, VF, 0);
    var f := if z.v[x] > z.v[y] then SetV(z, VF, 1) else z;
    SetV(f, x, Low8(f.v[x] as int - f.v[y]))
  }

  /** 8xy6: VF := Vx & 1, then Vx := Vx / 2. */
  function ShiftRight(s: State, x: Nibble): (t: State)
    requires WellFormed(s)
    ensures WellFormed(t)
  {
    var f := SetV(s, VF, BitAnd(s.v[x], 0x01));
    SetV(f, x, f.v[x] / 2)
  }

  /** 8xy7: VF := (Vy > Vx), then Vx := Vy - Vx on the registers after that. */
  function SubRegsReversed(s: State, x: Nibble, y: Nibble): (t: State)
    requires WellFormed(s)
    ensures WellFormed(t)
  {
    var f := SetV(s, VF, if s.v[y] > s.v[x] then 1 else 0);
    SetV(f, x, Low8(f.v[y] as int - f.v[x]))
  }

  /** 8xyE: VF := Vx & 0x80, then Vx := Vx * 2 on the registers after that. */
  function ShiftLeft(s: State, x: Nibble): (t: State)
    requires WellFormed(s)
    ensures WellFormed(t)
  {
    var f := SetV(s, VF, BitAnd(s.v[x], 0x80));
    SetV(f, x, Low8(f.v[x] as int * 2))
  }

  /** chip8_exec_extended_prefix_F. */
  function ApplyMisc(s: State, op: MiscOp, x: Nibble, key: int): (t: State)
    requires WellFormed(s) && MiscDefined(s, op, x)
    ensures WellFormed(t)
  {
    match op
    case LdVxDt => SetV(s, x, s.dt)
    case LdVxK => SetV(s, x, Low8(key))
    case LdDtVx => s.(dt := s.v[x])
    case LdStVx => s.(st := s.v[x])
    case AddI => s.(i := Low16(s.i as int + s.v[x]))
    case LdF => s.(i := Low16(FontBase + s.v[x] * GlyphHeight))
    case LdB => s.(memory := BcdBlock(s, x))
    case Store => s.(memory := StoreBlock(s, x))
    case Load => s.(v := LoadBlock(s, x))
  }

  /** chip8_exec on one instruction word. */
  function Next(s: State, w: Word, key: int, rnd: nat): (t: State)
    requires WellFormed(s) && Defined(s, Decode(w))
    ensures WellFormed(t)
  {
    Apply(s, Decode(w), key, rnd)
  }

  /** The memset of chip8_init: every cell and register zero, the stack empty, the display blank, no key down. */
  function Zeroed(): (s: State)
    ensures WellFormed(s)
  {
    State(seq(MemorySize, _ => 0), seq(DataRegisters, _ => 0), 0, 0, 0, 0, [], Blank(), seq(KeyCount, _ => false))
  }

  /** chip8_init: the zeroed machine with the font copied to address 0. */
  function Initial(): (s: State)
    ensures WellFormed(s)
  {
    var z := Zeroed();
    z.(memory := Font + z.memory[FontSize..])
  }

  /** chip8_load: buf copied to the load address, the rest of memory untouched. */
  function Loaded(s: State, buf: seq<Byte>): (t: State)
    requires WellFormed(s) && |buf| + LoadAddress < MemorySize
    ensures WellFormed(t)
  {
    s.(memory := s.memory[..LoadAddress] + buf + s.memory[LoadAddress + |buf|..])
  }

  /**
   * The machine as a program should find it before its first instruction:
   * chip8_init, chip8_load, and PC at the load address. Nothing in the
   * source performs the last part; see Properties.StartsInFont.
   */
  function Booted(buf: seq<Byte>): (s: State)
    requires |buf| + LoadAddress < MemorySize
    ensures WellFormed(s)
  {
    Loaded(Initial(), buf).(pc := LoadAddress)
  }

  /** The big-endian word at PC, as the run loop fetches it. */
  function Fetch(s: State): (w: Word)
    requires WellFormed(s) && s.pc + 1 < MemorySize
  {
    s.memory[s.pc] as int * 0x100 + s.memory[s.pc + 1]
  }

  /** The run loop's fetch: the word at PC, then PC += 2. */
  function Fetched(s: State): (t: State)
    requires WellFormed(s)
    ensures WellFormed(t)
  {
    s.(pc := Low16(s.pc as int + 2))
  }

  /** The fetch stays inside memory and the fetched instruction meets the conditions of Defined. */
  predicate CanStep(s: State)
    requires WellFormed(s)
  {
    s.pc + 1 < MemorySize && Defined(Fetched(s), Decode(Fetch(s)))
  }

  /** One turn of the run loop after its timer and display work: fetch, advance PC, execute. */
  function Step(s: State, key: int, rnd: nat): (t: State)
    requires WellFormed(s) && CanStep(s)
    ensures WellFormed(t)
  {
    Next(Fetched(s), Fetch(s), key, rnd)
  }

  datatype Option<T> = None | Some(value: T)

  /**
   * n turns of the run loop, each fed the same key and random value, or
   * None when a turn would break one of the source's assertions.
   */
  function Run(s: State, n: nat, key: int, rnd: nat): (r: Option<State>)
    requires WellFormed(s)
    ensures r.Some? ==> WellFormed(r.value)
    ensures n == 0 ==> r == Some(s)
    decreases n
  {
    if n == 0 then Some(s)
    else if CanStep(s) then Run(Step(s, key, rnd), n - 1, key, rnd)
    else None
  }
}
