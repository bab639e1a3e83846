/**
 * struct chip8 and the engine of chip8.c, updated in place: memory, the data
 * registers and the keypad are arrays, the display is a Screen, and I, PC,
 * the timers and the return stack are fields. The ghost field state is the
 * same machine as a value (module Semantics); Valid() says the two agree, and
 * every operation is proved to move state exactly as the reference
 * transition says.
 */
module Engine {
  import opened Config
  import opened Screen
  import opened Opcodes
  import opened Semantics

  /** The storage of a machine holds exactly the value s. */
  ghost predicate Holds(s: State, memory: array<Byte>, V: array<Byte>, keys: array<bool>, screen: Screen,
                        I: Word, PC: Word, delayTimer: Byte, soundTimer: Byte, stack: seq<Word>)
    reads memory, V, keys, screen.pixels
  {
    memory.Length == MemorySize && V.Length == DataRegisters && keys.Length == KeyCount
    && memory != V && keys as object != V && screen.Valid() && WellFormed(s)
    && memory[..] == s.memory && V[..] == s.v && I == s.i && PC == s.pc
    && delayTimer == s.dt && soundTimer == s.st && stack == s.stack
    && screen.Cells() == s.pixels && keys[..] == s.keys
  }

  /** Memory once the loop of Fx55 has stored V0 .. V(r-1). */
  ghost function StoredUpTo(s: State, r: nat): (m: seq<Byte>)
    requires WellFormed(s) && r <= DataRegisters && s.i + r <= MemorySize
    ensures |m| == MemorySize
  {
    seq(MemorySize, a requires 0 <= a < MemorySize =>
      if s.i <= a < s.i + r then s.v[a - s.i] else s.memory[a])
  }

  lemma StoredUpToStep(s: State, r: nat)
    requires WellFormed(s) && r < DataRegisters && s.i + r < MemorySize
    ensures StoredUpTo(s, r + 1) == StoredUpTo(s, r)[s.i + r := s.v[r]]
  {
  }

  lemma StoredUpToEnds(s: State, x: Nibble)
    requires WellFormed(s) && s.i + x < MemorySize
    ensures StoredUpTo(s, 0) == s.memory
    ensures StoredUpTo(s, x + 1) == StoreBlock(s, x)
  {
  }

  /** The registers once the loop of Fx65 has loaded V0 .. V(r-1). */
  ghost function LoadedUpTo(s: State, r: nat): (v: seq<Byte>)
    requires WellFormed(s) && r <= DataRegisters && s.i + r <= MemorySize
    ensures |v| == DataRegisters
  {
    seq(DataRegisters, q requires 0 <= q < DataRegisters =>
      if q < r then s.memory[s.i + q] else s.v[q])
  }

  lemma LoadedUpToStep(s: State, r: nat)
    requires WellFormed(s) && r < DataRegisters && s.i + r < MemorySize
    ensures SetV(s.(v := LoadedUpTo(s, r)), r, s.memory[s.i + r]) == s.(v := LoadedUpTo(s, r + 1))
  {
  }

  lemma LoadedUpToEnds(s: State, x: Nibble)
    requires WellFormed(s) && s.i + x < MemorySize
    ensures s.(v := LoadedUpTo(s, 0)) == s
    ensures LoadedUpTo(s, x + 1) == LoadBlock(s, x)
  {
  }

  class Chip8 {
    const memory: array<Byte>
    const V: array<Byte>
    const keys: array<bool>
    const screen: Screen
    var I: Word
    var PC: Word
    var delayTimer: Byte
    var soundTimer: Byte
    /** The return stack; its length is the stack pointer. */
    var stack: seq<Word>
    /** The machine as a value. */
    ghost var state: State

    ghost predicate Valid()
      reads this, memory, V, keys, screen.pixels
    {
      Holds(state, memory, V, keys, screen, I, PC, delayTimer, soundTimer, stack)
    }

    /** A machine with its storage allocated; Init gives it the contents chip8_init gives. */
    constructor ()
      ensures Valid() && fresh(memory) && fresh(V) && fresh(keys) && fresh(screen) && fresh(screen.pixels)
    {
      memory := new Byte[MemorySize](_ => 0);
      V := new Byte[DataRegisters](_ => 0);
      keys := new bool[KeyCount](_ => false);
      screen := new Screen();
      I, PC, delayTimer, soundTimer, stack := 0, 0, 0, 0, [];
      new;
      state := State(memory[..], V[..], 0, 0, 0, 0, [], screen.Cells(), keys[..]);
    }

    /** chip8_init: clear the whole record, then copy the font to address 0. */
    method Init()
      requires Valid()
      modifies this, memory, V, keys, screen.pixels
      ensures Valid() && state == Initial()
    {
      Zero();
      CopyFont();
    }

    /** The memset of chip8_init. */
    method Zero()
      requires Valid()
      modifies this, memory, V, keys, screen.pixels
      ensures Valid() && state == Zeroed()
    {
      ZeroMemory();
      ZeroRegisters();
      ReleaseKeys();
      ClearScreen();
      ResetFields();
    }

    /** I, PC, both timers and SP to zero. */
    method ResetFields()
      requires Valid()
      modifies this
      ensures Valid() && state == old(state).(i := 0, pc := 0, dt := 0, st := 0, stack := [])
    {
      I, PC, delayTimer, soundTimer, stack := 0, 0, 0, 0, [];
      state := state.(i := 0, pc := 0, dt := 0, st := 0, stack := []);
    }

    /** Every memory cell to zero. */
    method ZeroMemory()
      requires Valid()
      modifies this, memory
      ensures Valid() && state == old(state).(memory := seq(MemorySize, _ => 0))
    {
      forall a | 0 <= a < MemorySize {
        memory[a] := 0;
      }
      state := state.(memory := seq(MemorySize, _ => 0));
      assert memory[..] == state.memory;
    }

    /** Every data register to zero. */
    method ZeroRegisters()
      requires Valid()
      modifies this, V
      ensures Valid() && state == old(state).(v := seq(DataRegisters, _ => 0))
    {
      forall r | 0 <= r < DataRegisters {
        V[r] := 0;
      }
      state := state.(v := seq(DataRegisters, _ => 0));
      assert V[..] == state.v;
    }

    /** Every key to released. */
    method ReleaseKeys()
      requires Valid()
      modifies this, keys
      ensures Valid() && state == old(state).(keys := seq(KeyCount, _ => false))
    {
      forall k | 0 <= k < KeyCount {
        keys[k] := false;
      }
      state := state.(keys := seq(KeyCount, _ => false));
      assert keys[..] == state.keys;
    }

    /** The memcpy of the font in chip8_init. */
    method CopyFont()
      requires Valid()
      modifies this, memory
      ensures Valid() && state == old(state).(memory := Font + old(state).memory[FontSize..])
    {
      forall a | 0 <= a < FontSize {
        memory[FontBase + a] := Font[a];
      }
      ghost var m := Font + state.memory[FontSize..];
      assert forall a | 0 <= a < MemorySize :: memory[a] == m[a];
      state := state.(memory := m);
      assert memory[..] == state.memory;
    }

    /** chip8_load: copy buf to the load address; the assertion of the source is the precondition. */
    method Load(buf: seq<Byte>)
      requires Valid() && |buf| + LoadAddress < MemorySize
      modifies this, memory
      ensures Valid() && state == Loaded(old(state), buf)
    {
      forall a | 0 <= a < |buf| {
        memory[LoadAddress + a] := buf[a];
      }
      state := Loaded(state, buf);
      assert memory[..] == state.memory;
    }

    /**
     * chip8_init and chip8_load as main.c calls them, followed by the jump to
     * the load address that the source leaves out (see Properties.StartsInFont).
     */
    method Boot(buf: seq<Byte>)
      requires Valid() && |buf| + LoadAddress < MemorySize
      modifies this, memory, V, keys, screen.pixels
      ensures Valid() && state == Booted(buf)
    {
      Init();
      Load(buf);
      Jump(LoadAddress);
    }

    /** One write to a data register. */
    method SetRegister(r: Nibble, b: Byte)
      requires Valid()
      modifies this, V
      ensures Valid() && state == SetV(old(state), r, b)
    {
      V[r] := b;
      state := SetV(state, r, b);
    }

    /** chip8_memory_set: one write to memory, inside its bounds. */
    method SetMemory(a: int, b: Byte)
      requires Valid() && 0 <= a < MemorySize
      modifies this, memory
      ensures Valid() && state == old(state).(memory := old(state).memory[a := b])
    {
      memory[a] := b;
      state := state.(memory := state.memory[a := b]);
    }

    /** PC += 2 when the condition of a skip instruction holds. */
    method SkipWhen(taken: bool)
      requires Valid()
      modifies this
      ensures Valid() && state == SkipIf(old(state), taken)
    {
      if taken {
        PC := Low16(PC as int + 2);
      }
      state := SkipIf(state, taken);
    }

    method ClearScreen()
      requires Valid()
      modifies this, screen.pixels
      ensures Valid() && state == old(state).(pixels := Blank())
    {
      screen.Clear();
      state := state.(pixels := Blank());
    }

    /** RET through chip8_stack_pop: PC := the top of the stack, which is removed. */
    method Return()
      requires Valid() && |stack| > 0
      modifies this
      ensures Valid()
      ensures state == old(state).(pc := old(state).stack[|old(state).stack| - 1], stack := old(state).stack[..|old(state).stack| - 1])
    {
      PC := stack[|stack| - 1];
      stack := stack[..|stack| - 1];
      state := state.(pc := PC, stack := stack);
    }

    method Jump(a: Word)
      requires Valid()
      modifies this
      ensures Valid() && state == old(state).(pc := a)
    {
      PC := a;
      state := state.(pc := PC);
    }

    /** CALL through chip8_stack_push: push PC, then PC := a. */
    method CallSub(a: Word)
      requires Valid()
      modifies this
      ensures Valid() && state == old(state).(stack := old(state).stack + [old(state).pc], pc := a)
    {
      stack := stack + [PC];
      PC := a;
      state := state.(stack := stack, pc := PC);
    }

    method SetIndex(a: Word)
      requires Valid()
      modifies this
      ensures Valid() && state == old(state).(i := a)
    {
      I := a;
      state := state.(i := I);
    }

    method SetDelayTimer(b: Byte)
      requires Valid()
      modifies this
      ensures Valid() && state == old(state).(dt := b)
    {
      delayTimer := b;
      state := state.(dt := b);
    }

    method SetSoundTimer(b: Byte)
      requires Valid()
      modifies this
      ensures Valid() && state == old(state).(st := b)
    {
      soundTimer := b;
      state := state.(st := b);
    }

    /** chip8_exec: decode the word (the case analysis of chip8_exec and its helpers), then execute it. */
    method Exec(opcode: Word, key: int, rnd: nat)
      requires Valid() && Defined(state, Decode(opcode))
      modifies this, memory, V, screen.pixels
      ensures Valid() && state == Next(old(state), opcode, key, rnd)
    {
      Execute(Decode(opcode), key, rnd);
    }

    /**
     * The cases of chip8_exec and chip8_exec_extended, in groups. key is the
     * key the key wait of Fx0A returned, rnd the value rand() returned for Cxkk;
     * the groups that do not read one get it as a ghost, for their contract.
     */
    method Execute(instr: Instr, key: int, rnd: nat)
      requires Valid() && Defined(state, instr)
      modifies this, memory, V, screen.pixels
      ensures Valid() && state == Apply(old(state), instr, key, rnd)
    {
      if instr.Ret? || instr.Jp? || instr.Call? || instr.JpV0? {
        ExecControl(instr, key, rnd);
      } else if instr.SeByte? || instr.SneByte? || instr.SeReg? || instr.SneReg? {
        ExecSkip(instr, key, rnd);
      } else if instr.LdByte? || instr.AddByte? || instr.LdI? || instr.Rnd? {
        ExecLoad(instr, key, rnd);
      } else if instr.Cls? || instr.Drw? {
        ExecDisplay(instr, key, rnd);
      } else if instr.Alu? {
        ExecPrefix8(instr, key, rnd);
      } else if instr.Key? {
        ExecPrefixE(instr, key, rnd);
      } else if instr.Misc? {
        ExecPrefixF(instr, key, rnd);
      }
    }

    /** 00EE, 1nnn, 2nnn and Bnnn: the instructions that set PC. */
    method ExecControl(instr: Instr, ghost key: int, ghost rnd: nat)
      requires Valid() && Defined(state, instr) && (instr.Ret? || instr.Jp? || instr.Call? || instr.JpV0?)
      modifies this
      ensures Valid() && state == Apply(old(state), instr, key, rnd)
    {
      match instr
      case Ret => Return();
      case Jp(nnn) => Jump(nnn);
      case Call(nnn) => CallSub(nnn);
      case JpV0(nnn) => Jump(Low16(V[0] as int + nnn));
    }

    /** 3xkk, 4xkk, 5xyN and 9xyN: the register comparisons. */
    method ExecSkip(instr: Instr, ghost key: int, ghost rnd: nat)
      requires Valid() && (instr.SeByte? || instr.SneByte? || instr.SeReg? || instr.SneReg?)
      modifies this
      ensures Valid() && state == Apply(old(state), instr, key, rnd)
    {
      match instr
      case SeByte(x, kk) => SkipWhen(V[x] == kk);
      case SneByte(x, kk) => SkipWhen(V[x] != kk);
      case SeReg(x, y) => SkipWhen(V[x] == V[y]);
      case SneReg(x, y) => SkipWhen(V[x] != V[y]);
    }

    /** 6xkk, 7xkk, Annn and Cxkk: the loads of constants. */
    method ExecLoad(instr: Instr, ghost key: int, rnd: nat)
      requires Valid() && (instr.LdByte? || instr.AddByte? || instr.LdI? || instr.Rnd?)
      modifies this, V
      ensures Valid() && state == Apply(old(state), instr, key, rnd)
    {
      match instr
      case LdByte(x, kk) => SetRegister(x, kk);
      case AddByte(x, kk) => SetRegister(x, Low8(V[x] as int + kk));
      case LdI(nnn) => SetIndex(nnn);
      case Rnd(x, kk) => SetRegister(x, BitAnd(rnd % 255, kk));
    }

    /** 00E0 and Dxyn. */
    method ExecDisplay(instr: Instr, ghost key: int, ghost rnd: nat)
      requires Valid() && Defined(state, instr) && (instr.Cls? || instr.Drw?)
      modifies this, V, screen.pixels
      ensures Valid() && state == Apply(old(state), instr, key, rnd)
    {
      match instr
      case Cls => ClearScreen();
      case Drw(x, y, n) => ExecDraw(x, y, n);
    }

    /** 8xyN. */
    method ExecPrefix8(instr: Instr, ghost key: int, ghost rnd: nat)
      requires Valid() && instr.Alu?
      modifies this, V
      ensures Valid() && state == Apply(old(state), instr, key, rnd)
    {
      ExecAlu(instr.op, instr.x, instr.y);
    }

    /** ExKK. */
    method ExecPrefixE(instr: Instr, ghost key: int, ghost rnd: nat)
      requires Valid() && Defined(state, instr) && instr.Key?
      modifies this
      ensures Valid() && state == Apply(old(state), instr, key, rnd)
    {
      ExecKey(instr.kop, instr.x);
    }

    /** FxKK. */
    method ExecPrefixF(instr: Instr, key: int, ghost rnd: nat)
      requires Valid() && Defined(state, instr) && instr.Misc?
      modifies this, memory, V
      ensures Valid() && state == Apply(old(state), instr, key, rnd)
    {
      ExecMisc(instr.mop, instr.x, key);
    }

    /** Dxyn: draw the n bytes at I at (Vx, Vy), then put the collision flag in VF. */
    method ExecDraw(x: Nibble, y: Nibble, n: Nibble)
      requires Valid() && I + n <= MemorySize
      modifies this, V, screen.pixels
      ensures Valid() && state == Draw(old(state), x, y, n)
    {
      var collision := DrawAt(x, y, n);
      SetRegister(VF, if collision then 1 else 0);
    }

    /** The call of chip8_screen_draw_sprite in Dxyn, on the sprite at I. */
    method DrawAt(x: Nibble, y: Nibble, n: Nibble) returns (collision: bool)
      requires Valid() && I + n <= MemorySize
      modifies this, screen.pixels
      ensures Valid()
      ensures var s := old(state);
        state == s.(pixels := Drawn(s.pixels, s.v[x], s.v[y], SpriteAt(s, n)))
        && collision == Collides(s.pixels, s.v[x], s.v[y], SpriteAt(s, n))
    {
      ghost var s := state;
      var sprite := memory[I .. I + n];
      assert sprite[..n] == SpriteAt(s, n);
      collision := screen.DrawSprite(V[x], V[y], sprite, n);
      state := state.(pixels := screen.Cells());
    }

    /** Ex9E and ExA1: skip when key Vx is down, or up. */
    method ExecKey(op: KeyOp, x: Nibble)
      requires Valid() && V[x] < KeyCount
      modifies this
      ensures Valid() && state == ApplyKey(old(state), op, x)
    {
      match op
      case Skp => SkipWhen(keys[V[x]]);
      case Sknp => SkipWhen(!keys[V[x]]);
    }

    /** chip8_exec_extended_prefix_8. */
    method ExecAlu(op: AluOp, x: Nibble, y: Nibble)
      requires Valid()
      modifies this, V
      ensures Valid() && state == ApplyAlu(old(state), op, x, y)
    {
      match op
      case Ld => SetRegister(x, V[y]);
      case Or => SetRegister(x, BitOr(V[x], V[y]));
      case And => SetRegister(x, BitAnd(V[x], V[y]));
      case Xor => SetRegister(x, BitXor(V[x], V[y]));
      case Add => ExecAdd(x, y);
      case Sub => ExecSub(x, y);
      case Shr => ExecShr(x);
      case Subn => ExecSubn(x, y);
      case Shl => ExecShl(x);
    }

    /** 8xy4: the sum into temp, VF := 0, VF := 1 on a carry, Vx := the low byte of temp. */
    method ExecAdd(x: Nibble, y: Nibble)
      requires Valid()
      modifies this, V
      ensures Valid() && state == AddRegs(old(state), x, y)
    {
      ghost var s := state;
      var temp: Word := V[x] as int + V[y];
      SetRegister(VF, 0);
      if temp > 0xFF {
        SetRegister(VF, 1);
        Overwrite(s, VF, 0, 1);
      }
      SetRegister(x, Low8(temp));
    }

    /** 8xy5: VF := 0, VF := 1 when Vx > Vy, then Vx := Vx - Vy. */
    method ExecSub(x: Nibble, y: Nibble)
      requires Valid()
      modifies this, V
      ensures Valid() && state == SubRegs(old(state), x, y)
    {
      SetRegister(VF, 0);
      if V[x] > V[y] {
        SetRegister(VF, 1);
      }
      SetRegister(x, Low8(V[x] as int - V[y]));
    }

    /** 8xy6: VF := Vx & 1, then Vx := Vx / 2. */
    method ExecShr(x: Nibble)
      requires Valid()
      modifies this, V
      ensures Valid() && state == ShiftRight(old(state), x)
    {
      SetRegister(VF, BitAnd(V[x], 0x01));
      SetRegister(x, V[x] / 2);
    }

    /** 8xy7: VF := (Vy > Vx), then Vx := Vy - Vx. */
    method ExecSubn(x: Nibble, y: Nibble)
      requires Valid()
      modifies this, V
      ensures Valid() && state == SubRegsReversed(old(state), x, y)
    {
      SetRegister(VF, if V[y] > V[x] then 1 else 0);
      SetRegister(x, Low8(V[y] as int - V[x]));
    }

    /** 8xyE: VF := Vx & 0x80, then Vx := Vx * 2. */
    method ExecShl(x: Nibble)
      requires Valid()
      modifies this, V
      ensures Valid() && state == ShiftLeft(old(state), x)
    {
      SetRegister(VF, BitAnd(V[x], 0x80));
      SetRegister(x, Low8(V[x] as int * 2));
    }

    /** chip8_exec_extended_prefix_F. */
    method ExecMisc(op: MiscOp, x: Nibble, key: int)
      requires Valid() && MiscDefined(state, op, x)
      modifies this, memory, V
      ensures Valid() && state == ApplyMisc(old(state), op, x, key)
    {
      match op
      case LdVxDt => SetRegister(x, delayTimer);
      case LdVxK =>
        // the key the key wait returned
        SetRegister(x, Low8(key));
      case LdDtVx => SetDelayTimer(V[x]);
      case LdStVx => SetSoundTimer(V[x]);
      case AddI => SetIndex(Low16(I as int + V[x]));
      case LdF => SetIndex(Low16(FontBase + V[x] * GlyphHeight));
      case LdB => StoreBcd(x);
      case Store => StoreRegisters(x);
      case Load => LoadRegisters(x);
    }

    /** Fx33: the hundreds, tens and units digits of Vx, written at I, I+1 and I+2. */
    method StoreBcd(x: Nibble)
      requires Valid() && I + 2 < MemorySize
      modifies this, memory
      ensures Valid() && state == old(state).(memory := BcdBlock(old(state), x))
    {
      var hundreds := V[x] / 100;
      var tens := V[x] / 10 % 10;
      var units := V[x] % 10;
      SetMemory(I, hundreds);
      SetMemory(I + 1, tens);
      SetMemory(I + 2, units);
    }

    /** Fx55: memory[I + r] := V[r] for r = 0 .. x, in that order. */
    method StoreRegisters(x: Nibble)
      requires Valid() && I + x < MemorySize
      modifies this, memory
      ensures Valid() && state == old(state).(memory := StoreBlock(old(state), x))
    {
      ghost var s := state;
      StoredUpToEnds(s, x);
      for r := 0 to x + 1
        invariant Valid() && state == s.(memory := StoredUpTo(s, r))
      {
        StoredUpToStep(s, r);
        SetMemory(I + r, V[r]);
      }
    }

    /** Fx65: V[r] := memory[I + r] for r = 0 .. x, in that order. */
    method LoadRegisters(x: Nibble)
      requires Valid() && I + x < MemorySize
      modifies this, V
      ensures Valid() && state == old(state).(v := LoadBlock(old(state), x))
    {
      ghost var s := state;
      LoadedUpToEnds(s, x);
      for r := 0 to x + 1
        invariant Valid() && state == s.(v := LoadedUpTo(s, r))
      {
        LoadedUpToStep(s, r);
        SetRegister(r, memory[I + r]);
      }
    }

    /**
     * One turn of the run loop of main.c after its timer and display work:
     * fetch the big-endian word at PC, advance PC by 2, execute the word.
     */
    method Step(key: int, rnd: nat)
      requires Valid() && CanStep(state)
      modifies this, memory, V, screen.pixels
      ensures Valid() && state == Semantics.Step(old(state), key, rnd)
    {
      var opcode: Word := memory[PC] as int * 0x100 + memory[PC + 1];
      Jump(Low16(PC as int + 2));
      Exec(opcode, key, rnd);
    }
  }

  /** Writing a register twice keeps only the second write. */
  lemma Overwrite(s: State, r: Nibble, a: Byte, b: Byte)
    requires WellFormed(s)
    ensures SetV(SetV(s, r, a), r, b) == SetV(s, r, b)
  {
    assert SetV(SetV(s, r, a), r, b).v == SetV(s, r, b).v;
  }
}
