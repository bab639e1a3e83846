/**
 * What the instructions of chip8.c promise, proved for every machine state
 * on the reference transition of module Semantics. Module Engine proves the
 * in-place interpreter equal to that transition, so each fact here holds of
 * the interpreter as well.
 */
module Properties {
  import opened Config
  import opened Screen
  import opened Opcodes
  import opened Semantics

  /* Bits of a byte. */

  /** Vx & 0x01 is the low bit of Vx. */
  lemma LowBit(b: Byte)
    ensures BitAnd(b, 0x01) == b % 2
  {
  }

  /** Vx & 0x80 keeps the high bit where it is. */
  lemma HighBit(b: Byte)
    ensures BitAnd(b, 0x80) == if b >= 0x80 then 0x80 else 0
  {
  }

  lemma ByteRoundTrip(c: bv8)
    ensures (c as int) as bv8 == c
  {
  }

  /** A byte masked with k has no bit outside k. */
  lemma MaskedWithin(a: Byte, k: Byte)
    ensures (BitAnd(a, k) as bv8) & !(k as bv8) == 0
  {
    ByteRoundTrip((a as bv8) & (k as bv8));
  }

  /** A masked byte is all ones only when both operands are. */
  lemma MaskedAllOnes(a: Byte, k: Byte)
    ensures BitAnd(a, k) == 0xFF ==> a == 0xFF && k == 0xFF
  {
  }

  /* chip8_init and chip8_load */

  /** After chip8_init the font is at address 0 and everything else is zero, off or released. */
  lemma InitialMachine()
    ensures Initial().memory[..FontSize] == Font
    ensures forall a | FontSize <= a < MemorySize :: Initial().memory[a] == 0
    ensures forall r | 0 <= r < DataRegisters :: Initial().v[r] == 0
    ensures Initial().i == 0 && Initial().pc == 0 && Initial().dt == 0 && Initial().st == 0
    ensures Initial().stack == []
    ensures forall i, j | InBounds(i, j) :: !Initial().pixels[i][j]
    ensures forall k | 0 <= k < KeyCount :: !Initial().keys[k]
  {
  }

  /**
   * chip8_load puts the program at the load address and changes no other
   * byte; as its bound is strict, the last cell of memory is never written.
   */
  lemma LoadPlacesProgram(s: State, buf: seq<Byte>)
    requires WellFormed(s) && |buf| + LoadAddress < MemorySize
    ensures Loaded(s, buf).memory[LoadAddress .. LoadAddress + |buf|] == buf
    ensures forall a | 0 <= a < MemorySize && !(LoadAddress <= a < LoadAddress + |buf|) ::
      Loaded(s, buf).memory[a] == s.memory[a]
    ensures Loaded(s, buf).memory[MemorySize - 1] == s.memory[MemorySize - 1]
    ensures Loaded(s, buf) == s.(memory := Loaded(s, buf).memory)
  {
    var m := Loaded(s, buf).memory;
    forall a | 0 <= a < MemorySize && !(LoadAddress <= a < LoadAddress + |buf|)
      ensures m[a] == s.memory[a]
    {
      if a >= LoadAddress + |buf| {
        assert m[a] == s.memory[LoadAddress + |buf|..][a - LoadAddress - |buf|];
      }
    }
  }

  /** The font lies below the load address, so loading any program leaves it in place. */
  lemma FontSurvivesLoad(buf: seq<Byte>)
    requires |buf| + LoadAddress < MemorySize
    ensures Loaded(Initial(), buf).memory[..FontSize] == Font
  {
    InitialMachine();
    LoadPlacesProgram(Initial(), buf);
    assert forall a | 0 <= a < FontSize :: Loaded(Initial(), buf).memory[a] == Initial().memory[a];
  }

  /** The glyph the font table gives for the digit 4 is the glyph of 3. */
  lemma FourDrawsAsThree()
    ensures Font[4 * GlyphHeight .. 5 * GlyphHeight] == Font[3 * GlyphHeight .. 4 * GlyphHeight]
  {
    assert forall r | 0 <= r < GlyphHeight :: Font[4 * GlyphHeight .. 5 * GlyphHeight][r] == Font[3 * GlyphHeight .. 4 * GlyphHeight][r];
  }

  /**
   * The font holds sixteen glyphs of five rows, and every row has its low
   * nibble clear: each glyph is four pixels wide.
   */
  lemma FontIsFourWide()
    ensures |Font| == 16 * GlyphHeight
    ensures forall a | 0 <= a < |Font| :: Font[a] % 0x10 == 0
  {
  }

  /* The arithmetic group 8xyN */

  /** Every register other than x and VF keeps its value, and nothing outside the registers changes. */
  ghost predicate OnlyXAndFlag(s: State, t: State, x: Nibble)
    requires WellFormed(s) && WellFormed(t)
  {
    t == s.(v := t.v) && forall r | 0 <= r < DataRegisters && r != x && r != VF :: t.v[r] == s.v[r]
  }

  /**
   * 8xy4: the sum is formed from Vx and Vy before VF is written. For x other
   * than F, VF is the carry and (VF, Vx) together hold the 9-bit sum; for
   * x = F the stored low byte of the sum overwrites the carry.
   */
  lemma AddCarries(s: State, x: Nibble, y: Nibble, key: int, rnd: nat)
    requires WellFormed(s)
    ensures var t, sum := Apply(s, Alu(Add, x, y), key, rnd), s.v[x] as int + s.v[y];
      t.v[x] == sum % 0x100
      && (x != VF ==> t.v[VF] == (if sum > 0xFF then 1 else 0) && t.v[x] as int + 0x100 * (t.v[VF] as int) == sum)
      && OnlyXAndFlag(s, t, x)
  {
  }

  /**
   * 8xy5: VF is cleared before the comparison, which is strict. With x, y
   * other than F, VF is 1 exactly when Vx > Vy (so equal operands give 0)
   * and Vx wraps modulo 256. With y = F both the comparison and the
   * subtraction read the cleared and then set flag, so Vx -= 1 unless it is
   * 0. With x = F the flag is overwritten by 0 - Vy.
   */
  lemma SubtractsStrict(s: State, x: Nibble, y: Nibble, key: int, rnd: nat)
    requires WellFormed(s)
    ensures var t := Apply(s, Alu(Sub, x, y), key, rnd);
      (x != VF && y != VF ==>
        (t.v[VF] == 1 <==> s.v[x] > s.v[y]) && (t.v[VF] == 0 <==> s.v[x] <= s.v[y])
        && t.v[x] == (s.v[x] as int - s.v[y]) % 0x100)
      && (x != VF && y == VF ==>
        t.v[VF] == (if s.v[x] > 0 then 1 else 0) && t.v[x] == (if s.v[x] > 0 then s.v[x] - 1 else 0))
      && (x == VF ==> t.v[VF] == if y == VF then 0 else (0x100 - s.v[y] as int) % 0x100)
      && OnlyXAndFlag(s, t, x)
  {
  }

  /** 8xy6: VF is the bit shifted out and Vx is halved; with x = F the halved flag leaves 0. */
  lemma ShiftsRight(s: State, x: Nibble, key: int, rnd: nat)
    requires WellFormed(s)
    ensures var t := Apply(s, Alu(Shr, x, 0), key, rnd);
      (x != VF ==> t.v[VF] == s.v[x] % 2 && t.v[x] == s.v[x] / 2 && 2 * t.v[x] + t.v[VF] == s.v[x])
      && (x == VF ==> t.v[VF] == 0)
      && OnlyXAndFlag(s, t, x)
  {
    LowBit(s.v[x]);
  }

  /** 8xy7: VF := (Vy > Vx), then Vx := Vy - Vx modulo 256, reading VF after it was written. */
  lemma SubtractsReversed(s: State, x: Nibble, y: Nibble, key: int, rnd: nat)
    requires WellFormed(s)
    ensures var t := Apply(s, Alu(Subn, x, y), key, rnd);
      (x != VF && y != VF ==>
        t.v[VF] == (if s.v[y] > s.v[x] then 1 else 0) && t.v[x] == (s.v[y] as int - s.v[x]) % 0x100)
      && (x != VF && y == VF ==>
        t.v[VF] == (if s.v[VF] > s.v[x] then 1 else 0) && t.v[x] == (t.v[VF] as int - s.v[x]) % 0x100)
      && (x == VF ==> t.v[VF] == if y == VF then 0 else (s.v[y] as int - (if s.v[y] > s.v[VF] then 1 else 0)) % 0x100)
      && OnlyXAndFlag(s, t, x)
  {
  }

  /**
   * 8xyE: VF := Vx & 0x80, which is 0 or 128 and never 1, then Vx doubles
   * modulo 256; (VF, Vx) then hold twice the old Vx. With x = F the doubled
   * flag wraps to 0.
   */
  lemma ShiftsLeft(s: State, x: Nibble, key: int, rnd: nat)
    requires WellFormed(s)
    ensures var t := Apply(s, Alu(Shl, x, 0), key, rnd);
      (x != VF ==>
        (t.v[VF] == 0 || t.v[VF] == 0x80) && (t.v[VF] == 0x80 <==> s.v[x] >= 0x80)
        && t.v[x] == 2 * s.v[x] as int % 0x100 && t.v[x] as int + 2 * (t.v[VF] as int) == 2 * s.v[x] as int)
      && (x == VF ==> t.v[VF] == 0)
      && t.v[VF] != 1
      && OnlyXAndFlag(s, t, x)
  {
    HighBit(s.v[x]);
    var b := s.v[x] as int;
    assert 2 * b % 0x100 == if b >= 0x80 then 2 * b - 0x100 else 2 * b;
  }

  /** 8xy0-8xy3 set Vx alone: no flag is written. */
  lemma LogicKeepsFlag(s: State, op: AluOp, x: Nibble, y: Nibble, key: int, rnd: nat)
    requires WellFormed(s) && op in {Ld, Or, And, Xor}
    ensures var t := Apply(s, Alu(op, x, y), key, rnd);
      t == s.(v := s.v[x := t.v[x]])
  {
  }

  /** 8xy0 copies Vy; XOR of a register with itself clears it, OR and AND with itself change nothing. */
  lemma LogicIdentities(s: State, x: Nibble, y: Nibble, key: int, rnd: nat)
    requires WellFormed(s)
    ensures Apply(s, Alu(Ld, x, y), key, rnd).v[x] == s.v[y]
    ensures Apply(s, Alu(Xor, x, x), key, rnd).v[x] == 0
    ensures Apply(s, Alu(Or, x, x), key, rnd) == s
    ensures Apply(s, Alu(And, x, x), key, rnd) == s
  {
    assert s.v[x := s.v[x]] == s.v;
    SelfCombined(s.v[x]);
  }

  /** A byte OR-ed or AND-ed with itself is unchanged; XOR-ed with itself it is 0. */
  lemma SelfCombined(a: Byte)
    ensures BitOr(a, a) == a && BitAnd(a, a) == a && BitXor(a, a) == 0
  {
    OrSelf(a);
    AndSelf(a);
    XorSelf(a);
  }

  lemma OrSelf(a: Byte)
    ensures BitOr(a, a) == a
  {
  }

  lemma AndSelf(a: Byte)
    ensures BitAnd(a, a) == a
  {
  }

  lemma XorSelf(a: Byte)
    ensures BitXor(a, a) == 0
  {
  }

  /** 7xkk adds without a carry: Vx wraps modulo 256 and VF is untouched unless x = F. */
  lemma AddByteWraps(s: State, x: Nibble, kk: Byte, key: int, rnd: nat)
    requires WellFormed(s)
    ensures Apply(s, AddByte(x, kk), key, rnd) == s.(v := s.v[x := (s.v[x] as int + kk) % 0x100])
  {
  }

  /** 6xkk and Annn store their operand and change nothing else. */
  lemma LoadsImmediate(s: State, x: Nibble, kk: Byte, nnn: Addr, key: int, rnd: nat)
    requires WellFormed(s)
    ensures Apply(s, LdByte(x, kk), key, rnd) == s.(v := s.v[x := kk])
    ensures Apply(s, LdI(nnn), key, rnd) == s.(i := nnn)
  {
  }

  /* Skips */

  /** The six conditional skips: 3xkk, 4xkk, 5xyN, 9xyN, Ex9E and ExA1. */
  predicate IsSkip(instr: Instr) {
    instr.SeByte? || instr.SneByte? || instr.SeReg? || instr.SneReg? || instr.Key?
  }

  /** The condition each skip tests, read off the instruction's definition. */
  predicate SkipCondition(s: State, instr: Instr)
    requires WellFormed(s) && IsSkip(instr) && Defined(s, instr)
  {
    match instr
    case SeByte(x, kk) => s.v[x] == kk
    case SneByte(x, kk) => s.v[x] != kk
    case SeReg(x, y) => s.v[x] == s.v[y]
    case SneReg(x, y) => s.v[x] != s.v[y]
    case Key(op, x) => if op == Skp then s.keys[s.v[x]] else !s.keys[s.v[x]]
  }

  /** A skip adds 2 to PC (modulo 2^16) when its condition holds and changes nothing otherwise. */
  lemma SkipsExactlyWhen(s: State, instr: Instr, key: int, rnd: nat)
    requires WellFormed(s) && IsSkip(instr) && Defined(s, instr)
    ensures var t := Apply(s, instr, key, rnd);
      (SkipCondition(s, instr) ==> t == s.(pc := (s.pc + 2) % 0x1_0000))
      && (!SkipCondition(s, instr) ==> t == s)
      && (t != s <==> SkipCondition(s, instr))
  {
  }

  /** 5xyN and 9xyN execute the same for every low nibble N. */
  lemma RegisterSkipsIgnoreN(s: State, w: Word, key: int, rnd: nat)
    requires WellFormed(s) && (Family(w) == 0x5 || Family(w) == 0x9)
    ensures Defined(s, Decode(w)) && Defined(s, Decode(w - N(w)))
    ensures Next(s, w, key, rnd) == Next(s, w - N(w), key, rnd)
  {
    RegisterSkipsIgnoreLowNibble(w);
  }

  /* Jumps, CALL and RET */

  /** JP, Bnnn and CALL set PC to their target and do not add the fetch increment; V0 + nnn never wraps. */
  lemma JumpsSetPc(s: State, nnn: Addr, key: int, rnd: nat)
    requires WellFormed(s)
    ensures Apply(s, Jp(nnn), key, rnd) == s.(pc := nnn)
    ensures Apply(s, JpV0(nnn), key, rnd) == s.(pc := s.v[0] as int + nnn)
    ensures Apply(s, Call(nnn), key, rnd) == s.(pc := nnn, stack := s.stack + [s.pc])
  {
  }

  /** RET after CALL gives back the machine as it was before the call. */
  lemma CallThenReturn(s: State, nnn: Addr, key: int, rnd: nat)
    requires WellFormed(s)
    ensures var c := Apply(s, Call(nnn), key, rnd);
      Defined(c, Ret) && Apply(c, Ret, key, rnd) == s
  {
    var c := Apply(s, Call(nnn), key, rnd);
    assert c.stack[..|c.stack| - 1] == s.stack;
  }

  /** CALL to each target of ts in turn (neither CALL nor RET reads the key or the random value). */
  function CallEach(s: State, ts: seq<Addr>): (t: State)
    requires WellFormed(s)
    ensures WellFormed(t) && |t.stack| == |s.stack| + |ts|
  {
    if ts == [] then s else Apply(CallEach(s, ts[..|ts| - 1]), Call(ts[|ts| - 1]), 0, 0)
  }

  /** n RETs in turn. */
  function ReturnTimes(s: State, n: nat): (t: State)
    requires WellFormed(s) && n <= |s.stack|
    ensures WellFormed(t)
    decreases n
  {
    if n == 0 then s else ReturnTimes(Apply(s, Ret, 0, 0), n - 1)
  }

  /**
   * After a run of CALLs, k RETs undo the last k of them in reverse order,
   * leaving the machine as the first |ts| - k CALLs left it, and |ts| RETs
   * restore the machine entirely.
   */
  lemma {:induction false} ReturnsUndoCalls(s: State, ts: seq<Addr>, k: nat)
    requires WellFormed(s) && k <= |ts|
    ensures ReturnTimes(CallEach(s, ts), k) == CallEach(s, ts[..|ts| - k])
  {
    if k > 0 {
      var front := ts[..|ts| - 1];
      CallThenReturn(CallEach(s, front), ts[|ts| - 1], 0, 0);
      assert Apply(CallEach(s, ts), Ret, 0, 0) == CallEach(s, front);
      assert ReturnTimes(CallEach(s, ts), k) == ReturnTimes(CallEach(s, front), k - 1);
      ReturnsUndoCalls(s, front, k - 1);
      assert front[..|front| - (k - 1)] == ts[..|ts| - k];
    } else {
      assert ts[..|ts|] == ts;
    }
  }

  /**
   * After the CALLs to ts, k RETs (k < |ts|) leave PC at the target of CALL
   * number |ts| - k: each RET lands on the target of the CALL before the one
   * it undoes.
   */
  lemma ReturnsInReverseOrder(s: State, ts: seq<Addr>, k: nat)
    requires WellFormed(s) && k < |ts|
    ensures ReturnTimes(CallEach(s, ts), k).pc == ts[|ts| - 1 - k]
  {
    ReturnsUndoCalls(s, ts, k);
    var front := ts[..|ts| - k];
    assert front[..|front| - 1] == ts[..|ts| - k - 1];
  }

  /** As many RETs as CALLs restore the machine entirely. */
  lemma ReturnsRestore(s: State, ts: seq<Addr>)
    requires WellFormed(s)
    ensures ReturnTimes(CallEach(s, ts), |ts|) == s
  {
    ReturnsUndoCalls(s, ts, |ts|);
    assert ts[..0] == [];
  }

  /* Fx33, Fx55 and Fx65 */

  /** Fx33 writes the three decimal digits of Vx, which spell Vx back, and nothing else. */
  lemma BcdDigits(s: State, x: Nibble, key: int, rnd: nat)
    requires WellFormed(s) && s.i + 2 < MemorySize
    ensures var t, a := Apply(s, Misc(LdB, x), key, rnd), s.i;
      t.memory[a] <= 2 && t.memory[a + 1] < 10 && t.memory[a + 2] < 10
      && 100 * t.memory[a] as int + 10 * t.memory[a + 1] as int + t.memory[a + 2] as int == s.v[x]
      && (forall b | 0 <= b < MemorySize && !(a <= b <= a + 2) :: t.memory[b] == s.memory[b])
      && t == s.(memory := t.memory)
  {
  }

  /** Fx55 stores V0 through Vx, x included, at I onwards and changes nothing else. */
  lemma StoreUpToX(s: State, x: Nibble, key: int, rnd: nat)
    requires WellFormed(s) && s.i + x < MemorySize
    ensures var t := Apply(s, Misc(Store, x), key, rnd);
      (forall r | 0 <= r <= x :: t.memory[s.i + r] == s.v[r])
      && (forall a | 0 <= a < MemorySize && !(s.i <= a <= s.i + x) :: t.memory[a] == s.memory[a])
      && t == s.(memory := t.memory)
  {
  }

  /** Fx65 loads V0 through Vx, x included, from I onwards and changes nothing else. */
  lemma LoadUpToX(s: State, x: Nibble, key: int, rnd: nat)
    requires WellFormed(s) && s.i + x < MemorySize
    ensures var t := Apply(s, Misc(Load, x), key, rnd);
      (forall r | 0 <= r <= x :: t.v[r] == s.memory[s.i + r])
      && (forall r | x < r < DataRegisters :: t.v[r] == s.v[r])
      && t == s.(v := t.v)
  {
  }

  /** Fx65 after Fx55 with the same x reads back what was stored, and Fx55 after Fx65 writes back what was read. */
  lemma StoreLoadRoundTrip(s: State, x: Nibble, key: int, rnd: nat)
    requires WellFormed(s) && s.i + x < MemorySize
    ensures var t := Apply(s, Misc(Store, x), key, rnd);
      Defined(t, Misc(Load, x)) && Apply(t, Misc(Load, x), key, rnd) == t
    ensures var t := Apply(s, Misc(Load, x), key, rnd);
      Defined(t, Misc(Store, x)) && Apply(t, Misc(Store, x), key, rnd) == t
  {
    var t := Apply(s, Misc(Store, x), key, rnd);
    assert LoadBlock(t, x) == t.v;
    var u := Apply(s, Misc(Load, x), key, rnd);
    assert StoreBlock(u, x) == u.memory;
  }

  /* Cxkk, Fx0A and the inputs of an instruction */

  /** Cxkk: Vx has no bit outside kk, and as rand() % 255 is at most 254, Vx is never 0xFF. */
  lemma RandomIsMasked(s: State, x: Nibble, kk: Byte, key: int, rnd: nat)
    requires WellFormed(s)
    ensures var t := Apply(s, Rnd(x, kk), key, rnd);
      (t.v[x] as bv8) & !(kk as bv8) == 0
      && t.v[x] != 0xFF
      && t == s.(v := s.v[x := t.v[x]])
  {
    MaskedWithin(rnd % 255, kk);
    MaskedAllOnes(rnd % 255, kk);
  }

  /** Fx0A stores the key it waited for; the failure value -1 arrives as 0xFF. */
  lemma KeyWaitStoresKey(s: State, x: Nibble, key: int, rnd: nat)
    requires WellFormed(s) && -1 <= key < KeyCount
    ensures var t := Apply(s, Misc(LdVxK, x), key, rnd);
      t.v[x] == (if key == -1 then 0xFF else key) && t == s.(v := s.v[x := t.v[x]])
  {
  }

  /** Only Fx0A depends on the key parameter and only Cxkk on the random one. */
  lemma InputsReadOnlyWhereUsed(s: State, instr: Instr, key: int, key': int, rnd: nat, rnd': nat)
    requires WellFormed(s) && Defined(s, instr)
    ensures !(instr.Misc? && instr.mop == LdVxK) ==> Apply(s, instr, key, rnd) == Apply(s, instr, key', rnd)
    ensures !instr.Rnd? ==> Apply(s, instr, key, rnd) == Apply(s, instr, key, rnd')
  {
  }

  /* The other instructions of group F */

  /** Fx29 points I at the glyph of the digit Vx, which lies inside the font for Vx < 16. */
  lemma GlyphAddress(s: State, x: Nibble, key: int, rnd: nat)
    requires WellFormed(s)
    ensures var t := Apply(s, Misc(LdF, x), key, rnd);
      t == s.(i := FontBase + GlyphHeight * s.v[x])
      && (s.v[x] < 0x10 ==> t.i + GlyphHeight <= FontSize)
  {
  }

  /** Fx07, Fx15, Fx18 and Fx1E move one value each; I wraps at 16 bits and VF is never written as a carry. */
  lemma TimersAndIndex(s: State, x: Nibble, key: int, rnd: nat)
    requires WellFormed(s)
    ensures Apply(s, Misc(LdVxDt, x), key, rnd) == s.(v := s.v[x := s.dt])
    ensures Apply(s, Misc(LdDtVx, x), key, rnd) == s.(dt := s.v[x])
    ensures Apply(s, Misc(LdStVx, x), key, rnd) == s.(st := s.v[x])
    ensures var t := Apply(s, Misc(AddI, x), key, rnd);
      t == s.(i := t.i)
      && t.i as int == if s.i as int + s.v[x] < 0x1_0000 then s.i as int + s.v[x] else s.i as int + s.v[x] - 0x1_0000
  {
  }

  /* Words that are not instructions */

  /** A word no branch recognises changes nothing at all. */
  lemma UnrecognisedIsNoOp(s: State, w: Word, key: int, rnd: nat)
    requires WellFormed(s) && Unrecognised(w)
    ensures Defined(s, Decode(w)) && Next(s, w, key, rnd) == s
  {
    DecodeUnknownIff(w);
  }

  /* Dxyn */

  /**
   * Dxyn toggles exactly the pixels that a set bit of the n sprite bytes at I
   * targets, sets VF to 1 exactly when one of those pixels was on and to 0
   * otherwise, and changes nothing else.
   */
  lemma DrawTogglesAndFlags(s: State, x: Nibble, y: Nibble, n: Nibble, key: int, rnd: nat)
    requires WellFormed(s) && s.i + n <= MemorySize
    ensures var t, rows := Apply(s, Drw(x, y, n), key, rnd), SpriteAt(s, n);
      (forall i, j | InBounds(i, j) :: t.pixels[i][j] == (s.pixels[i][j] != Targeted(s.v[x], s.v[y], rows, i, j)))
      && (t.v[VF] == 1 <==> exists i, j | InBounds(i, j) :: Targeted(s.v[x], s.v[y], rows, i, j) && s.pixels[i][j])
      && (t.v[VF] == 0 || t.v[VF] == 1)
      && t == s.(pixels := t.pixels, v := s.v[VF := t.v[VF]])
  {
    var rows := SpriteAt(s, n);
    CollidesIffTargetedPixelOn(s.pixels, s.v[x], s.v[y], rows);
    forall i, j | InBounds(i, j)
      ensures Drawn(s.pixels, s.v[x], s.v[y], rows)[i][j] == (s.pixels[i][j] != Targeted(s.v[x], s.v[y], rows, i, j))
    {
      DrawTogglesTargeted(s.pixels, s.v[x], s.v[y], rows, i, j);
    }
  }

  /**
   * Drawing the same sprite twice at the same place restores the display, as
   * long as neither coordinate register is VF (the first draw would move the
   * second); only VF is left changed.
   */
  lemma DrawTwiceRestoresDisplay(s: State, x: Nibble, y: Nibble, n: Nibble, key: int, rnd: nat)
    requires WellFormed(s) && s.i + n <= MemorySize && x != VF && y != VF
    ensures var t := Apply(s, Drw(x, y, n), key, rnd);
      Defined(t, Drw(x, y, n))
      && Apply(t, Drw(x, y, n), key, rnd).pixels == s.pixels
      && Apply(t, Drw(x, y, n), key, rnd) == s.(v := s.v[VF := Apply(t, Drw(x, y, n), key, rnd).v[VF]])
  {
    var t := Apply(s, Drw(x, y, n), key, rnd);
    assert SpriteAt(t, n) == SpriteAt(s, n);
    DrawTwiceRestores(s.pixels, s.v[x], s.v[y], SpriteAt(s, n));
    assert t.v[VF := s.v[VF]] == s.v;
  }

  /** With n = 0 or an all-zero sprite, Dxyn only clears VF. */
  lemma BlankSpriteOnlyClearsFlag(s: State, x: Nibble, y: Nibble, n: Nibble, key: int, rnd: nat)
    requires WellFormed(s) && s.i + n <= MemorySize
    requires forall a | s.i <= a < s.i + n :: s.memory[a] == 0
    ensures Apply(s, Drw(x, y, n), key, rnd) == s.(v := s.v[VF := 0])
  {
    BlankSpriteIsNoOp(s.pixels, s.v[x], s.v[y], SpriteAt(s, n));
  }

  /* The run loop */

  /** The fetched word has the byte at PC as its high half and the byte after it as its low half. */
  lemma FetchIsBigEndian(s: State)
    requires WellFormed(s) && s.pc + 1 < MemorySize
    ensures Fetch(s) / 0x100 == s.memory[s.pc] && Fetch(s) % 0x100 == s.memory[s.pc + 1]
  {
  }

  /**
   * PC moves past the fetched word before the instruction runs: a CALL
   * pushes the address of the next instruction, so the matching RET resumes
   * there, and a taken skip passes over one whole instruction.
   */
  lemma StepAdvancesFirst(s: State, key: int, rnd: nat)
    requires WellFormed(s) && CanStep(s)
    ensures Decode(Fetch(s)).Call? ==>
      var t := Step(s, key, rnd);
      t.pc == Decode(Fetch(s)).nnn && t.stack == s.stack + [s.pc + 2]
      && Defined(t, Ret) && Apply(t, Ret, key, rnd) == Fetched(s)
    ensures IsSkip(Decode(Fetch(s))) ==>
      Step(s, key, rnd).pc == s.pc + (if SkipCondition(Fetched(s), Decode(Fetch(s))) then 4 else 2)
  {
    if Decode(Fetch(s)).Call? {
      CallThenReturn(Fetched(s), Decode(Fetch(s)).nnn, key, rnd);
    }
    if IsSkip(Decode(Fetch(s))) {
      SkipsExactlyWhen(Fetched(s), Decode(Fetch(s)), key, rnd);
    }
  }

  /* Where execution starts */

  /** Below the program, a loaded machine holds the font and then zeros. */
  lemma LoadedBelowProgram(buf: seq<Byte>)
    requires |buf| + LoadAddress < MemorySize
    ensures forall a | 0 <= a < FontSize :: Loaded(Initial(), buf).memory[a] == Font[a]
    ensures forall a | FontSize <= a < LoadAddress :: Loaded(Initial(), buf).memory[a] == 0
  {
    InitialMachine();
    LoadPlacesProgram(Initial(), buf);
    assert forall a | 0 <= a < FontSize :: Initial().memory[a] == Initial().memory[..FontSize][a];
  }

  /** The zero word is not an instruction, so over a stretch of zeros the run loop only advances PC. */
  lemma {:induction false} SlidesOverZeros(s: State, k: nat, key: int, rnd: nat)
    requires WellFormed(s) && s.pc + 2 * k <= MemorySize
    requires forall a | s.pc <= a < s.pc + 2 * k :: s.memory[a] == 0
    ensures Run(s, k, key, rnd) == Some(s.(pc := s.pc + 2 * k))
    decreases k
  {
    if k > 0 {
      assert Fetch(s) == 0;
      var s' := Step(s, key, rnd);
      assert s' == s.(pc := s.pc + 2);
      SlidesOverZeros(s', k - 1, key, rnd);
    }
  }

  /** From 0x070, the 200 zero words below the load address take PC to the load address. */
  lemma SlidesToProgram(s: State, key: int, rnd: nat)
    requires WellFormed(s) && s.pc == 0x070
    requires forall a | 0x070 <= a < LoadAddress :: s.memory[a] == 0
    ensures Run(s, 200, key, rnd) == Some(s.(pc := LoadAddress))
  {
    SlidesOverZeros(s, 200, key, rnd);
  }

  /** a turns of the run loop and then b more are a + b turns. */
  lemma {:induction false} RunThen(s: State, a: nat, b: nat, key: int, rnd: nat)
    requires WellFormed(s)
    ensures Run(s, a + b, key, rnd) == match Run(s, a, key, rnd) case Some(t) => Run(t, b, key, rnd) case None => None
    decreases a
  {
    if a > 0 && CanStep(s) {
      RunThen(Step(s, key, rnd), a - 1, b, key, rnd);
    }
  }

  /** A run that ends in t, followed by a run from t that ends in u, is one run ending in u. */
  lemma RunsCompose(s: State, t: State, u: State, a: nat, b: nat, key: int, rnd: nat)
    requires WellFormed(s) && WellFormed(t)
    requires Run(s, a, key, rnd) == Some(t) && Run(t, b, key, rnd) == Some(u)
    ensures Run(s, a + b, key, rnd) == Some(u)
  {
    RunThen(s, a, b, key, rnd);
  }

  /** A turn on a word no branch recognises only advances PC past it. */
  lemma UnrecognisedTurn(s: State, key: int, rnd: nat)
    requires WellFormed(s) && s.pc + 1 < MemorySize && Unrecognised(Fetch(s))
    ensures CanStep(s) && Step(s, key, rnd) == s.(pc := s.pc + 2)
  {
    UnrecognisedIsNoOp(Fetched(s), Fetch(s), key, rnd);
  }

  /** 9090 with V0 = V9 is a skip not taken: PC moves to the next word. */
  lemma UntakenSkipTurn(s: State, key: int, rnd: nat)
    requires WellFormed(s) && s.pc + 1 < MemorySize && s.v[0] == s.v[9]
    requires s.memory[s.pc] == 0x90 && s.memory[s.pc + 1] == 0x90
    ensures CanStep(s) && Step(s, key, rnd) == s.(pc := s.pc + 2)
  {
    assert Fetch(s) == 0x9090;
    assert Decode(0x9090) == SneReg(0, 9);
  }

  /** The words F090, 9090 and F020 at address 0 take PC to 6 and change nothing else (V0 = V9 after init). */
  lemma FirstFontTurns(s: State, key: int, rnd: nat)
    requires WellFormed(s) && s.pc == 0 && s.v[0] == s.v[9]
    requires s.memory[0] == 0xF0 && s.memory[1] == 0x90 && s.memory[2] == 0x90
    requires s.memory[3] == 0x90 && s.memory[4] == 0xF0 && s.memory[5] == 0x20
    ensures Run(s, 3, key, rnd) == Some(s.(pc := 6))
  {
    assert Fetch(s) == 0xF090;
    UnrecognisedTurn(s, key, rnd);
    var s1 := s.(pc := 2);
    UntakenSkipTurn(s1, key, rnd);
    var s2 := s.(pc := 4);
    assert Fetch(s2) == 0xF020;
    UnrecognisedTurn(s2, key, rnd);
  }

  /** The words 6020 and 2070 at address 6: V0 := 0x20, then CALL 0x070 from address 8. */
  lemma NextFontTurns(s: State, key: int, rnd: nat)
    requires WellFormed(s) && s.pc == 6
    requires s.memory[6] == 0x60 && s.memory[7] == 0x20 && s.memory[8] == 0x20 && s.memory[9] == 0x70
    ensures Run(s, 2, key, rnd) == Some(s.(pc := 0x070, v := s.v[0 := 0x20], stack := s.stack + [0x00A]))
  {
    var s1 := Step(s, key, rnd);
    assert s1 == s.(pc := 8, v := s.v[0 := 0x20]);
    assert Step(s1, key, rnd) == s.(pc := 0x070, v := s.v[0 := 0x20], stack := s.stack + [0x00A]);
  }

  /** The first ten bytes of the font: glyph 0 and glyph 1. */
  lemma FontStart()
    ensures Font[..10] == [0xF0, 0x90, 0x90, 0x90, 0xF0, 0x20, 0x60, 0x20, 0x20, 0x70]
  {
  }

  /**
   * The font's first ten bytes, run as code from address 0, are
   * F090 9090 F020 6020 2070: five turns set V0 to 0x20 and call 0x070.
   */
  lemma FontAsCode(s0: State, key: int, rnd: nat)
    requires WellFormed(s0) && s0.pc == 0 && s0.v[0] == s0.v[9] && s0.stack == []
    requires s0.memory[0] == 0xF0 && s0.memory[1] == 0x90 && s0.memory[2] == 0x90
    requires s0.memory[3] == 0x90 && s0.memory[4] == 0xF0 && s0.memory[5] == 0x20
    requires s0.memory[6] == 0x60 && s0.memory[7] == 0x20 && s0.memory[8] == 0x20 && s0.memory[9] == 0x70
    ensures Run(s0, 5, key, rnd) == Some(s0.(pc := 0x070, v := s0.v[0 := 0x20], stack := [0x00A]))
  {
    FirstFontTurns(s0, key, rnd);
    var s3 := s0.(pc := 6);
    NextFontTurns(s3, key, rnd);
    assert s3.stack + [0x00A] == [0x00A];
    RunsCompose(s0, s3, s0.(pc := 0x070, v := s0.v[0 := 0x20], stack := [0x00A]), 3, 2, key, rnd);
  }

  /**
   * From address 0, the run loop executes the font's first ten bytes and
   * then slides over the zeros below the load address: after 205 turns PC
   * is at the load address, V0 holds 0x20 and the stack holds the return
   * address 0x00A.
   */
  lemma FontPrologue(s0: State, key: int, rnd: nat)
    requires WellFormed(s0) && s0.pc == 0 && s0.v[0] == s0.v[9] && s0.stack == []
    requires s0.memory[..10] == [0xF0, 0x90, 0x90, 0x90, 0xF0, 0x20, 0x60, 0x20, 0x20, 0x70]
    requires forall a | 0x070 <= a < LoadAddress :: s0.memory[a] == 0
    ensures Run(s0, 205, key, rnd) == Some(s0.(pc := LoadAddress, v := s0.v[0 := 0x20], stack := [0x00A]))
  {
    assert forall a | 0 <= a < 10 :: s0.memory[a] == s0.memory[..10][a];
    FontAsCode(s0, key, rnd);
    var s5 := s0.(pc := 0x070, v := s0.v[0 := 0x20], stack := [0x00A]);
    SlidesToProgram(s5, key, rnd);
    RunsCompose(s0, s5, s5.(pc := LoadAddress), 5, 200, key, rnd);
  }

  /**
   * Nothing in chip8_init, chip8_load or the run loop sets PC to the load
   * address, so the loop starts at address 0 and runs the font as code:
   * F090 (not an instruction), 9090 (SNE V0, V9, not taken), F020 (not an
   * instruction), 6020 (LD V0, 0x20) and 2070 (CALL 0x070), after which it
   * slides over zeros up to the program. The program thus starts 205 turns
   * later with V0 = 0x20 and a stale return address 0x00A on the stack.
   */
  lemma StartsInFont(buf: seq<Byte>, key: int, rnd: nat)
    requires |buf| + LoadAddress < MemorySize
    ensures var s := Loaded(Initial(), buf);
      s.pc == 0 && Fetch(s) == 0xF090
      && Run(s, 205, key, rnd) == Some(s.(pc := LoadAddress, v := s.v[0 := 0x20], stack := [0x00A]))
  {
    var s0 := Loaded(Initial(), buf);
    InitialMachine();
    LoadPlacesProgram(Initial(), buf);
    LoadedBelowProgram(buf);
    FontStart();
    var start := Font[..10];
    assert forall a | 0 <= a < 10 :: s0.memory[a] == start[a];
    assert s0.memory[..10] == start;
    assert s0.memory[0] == 0xF0 && s0.memory[1] == 0x90;
    FontPrologue(s0, key, rnd);
  }

  /** With PC at the load address, the first word fetched is the program's own and the rest is as after init. */
  lemma BootedRunsProgram(buf: seq<Byte>)
    requires |buf| + LoadAddress < MemorySize
    ensures var s := Booted(buf);
      s.pc == LoadAddress && s.stack == [] && s.memory[..FontSize] == Font
      && (forall r | 0 <= r < DataRegisters :: s.v[r] == 0)
      && (|buf| >= 2 ==> Fetch(s) == buf[0] as int * 0x100 + buf[1])
  {
    InitialMachine();
    FontSurvivesLoad(buf);
    LoadPlacesProgram(Initial(), buf);
    if |buf| >= 2 {
      assert Booted(buf).memory[LoadAddress .. LoadAddress + |buf|][0] == buf[0];
      assert Booted(buf).memory[LoadAddress .. LoadAddress + |buf|][1] == buf[1];
    }
  }
}
