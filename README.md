# CHIP-8 interpreter core, modelled and verified in Dafny

This project models the instruction engine of a small C CHIP-8 interpreter and
its monochrome display, then proves what each part promises. The engine is
`chip8_init`, `chip8_load`, `chip8_exec` and the dispatch helpers of
`src/chip8.c`. The display is the 64x32 pixel grid of `src/chip8screen.c`,
with clear, set-on, set-off, query and the XOR sprite draw that reports
collisions. The model also includes one turn of the run loop in `src/main.c`:
fetch the big-endian word at PC, add 2 to PC, execute the word.

The project has two layers, matching the source's own form.

* **Value layer.** `Semantics.Apply` is the reference transition on a
  machine value `Semantics.State`. The state holds memory, V0-VF, I, PC,
  the timers, the return stack, the pixel grid and the keypad.
  `Opcodes.Decode` follows the case analysis of `chip8_exec` and its helpers.
  `Screen.Drawn` and `Screen.Collides` specify the sprite draw step by step,
  in the loop order of the C code.
* **In-place layer.** `Engine.Chip8` is `struct chip8` updated in place:
  * memory, the registers and the keypad are arrays;
  * the display is a `Screen.Screen` over a 2-D array;
  * I, PC, the timers and the stack are fields.

  Every method is proved to change the machine exactly as the value layer
  says. `DrawSprite` keeps the nested loops of the C code, with loop
  invariants. The loops of Fx55 and Fx65 are `for` loops over the
  registers.

Module `Properties` proves what the source promises about the value layer.
Because each engine method is proved equal to that layer, the properties
also hold for the engine. They cover:
* the carry and borrow rules;
* when each skip is taken;
* CALL/RET nesting;
* the BCD digits;
* the inclusive block transfers;
* the random mask;
* the collision flag;
* double-draw restoration;
* the start of execution.

Files: `config.dfy` (constants), `opcodes.dfy` (fields and decoding),
`screen.dfy` (display), `semantics.dfy` (reference transition, init, load,
fetch, run), `chip8.dfy` (in-place engine), `properties.dfy` (lemmas).

Integer widths are explicit:
* Registers and memory cells are `Byte` (0..255); I, PC and instruction
  words are `Word` (0..65535).
* Every store into an `unsigned char` or an `unsigned short` is truncated by
  `Low8` or `Low16`.
* `|`, `&` and `^` are taken on `bv8`.

Where the C code and its own comments disagree, the model follows the code:
* SUB (8xy5) is commented "VF = NOT borrow", which would mean VF = 1 when
  Vx >= Vy. The code compares strictly (`Vx > Vy`), so equal operands give
  VF = 0. It also clears VF before the comparison, so with x or y equal to F
  the comparison and the subtraction read the cleared flag. See
  `Properties.SubtractsStrict`.
* SHL (8xyE) is commented "VF is set to 1" when the top bit is set. The code
  stores `Vx & 0x80`, so VF is 0 or 128. See `Properties.ShiftsLeft`.

Some behaviour is kept exactly as written, and none of it is reported as a
finding:
* the strict load bound (`size + 0x200 < 4096`);
* the font rows for digit 4, which repeat digit 3;
* the `rand() % 255` of Cxkk, which never yields 0xFF.

## Model

| member | source | states |
|---|---|---|
| Screen.Blank | src/chip8screen.c:10-13 | every pixel of the cleared grid is off |
| Screen.InBounds | src/chip8screen.c:5-8 | no contract of its own: the coordinates the bounds assertion accepts, 0 <= x < 64 and 0 <= y < 32; it is the whole precondition of `Screen.Screen.SetOn`, `SetOff` and `IsSet`, so those accept exactly what the assertion accepts |
| Screen.Screen.Clear | src/chip8screen.c:10-13 | afterwards the grid equals `Blank()`: every pixel off |
| Screen.Painted | src/chip8screen.c:15-25 | the addressed pixel takes the given value and every other pixel keeps its own |
| Screen.Screen.SetOn | src/chip8screen.c:15-19 | requires the coordinates the bounds assertion accepts; the new grid is the old one with that pixel on and no other change |
| Screen.Screen.SetOff | src/chip8screen.c:21-25 | requires the coordinates the bounds assertion accepts; the new grid is the old one with that pixel off and no other change |
| Screen.Screen.IsSet | src/chip8screen.c:54-58 | requires in-bounds coordinates; returns that pixel of the grid and changes nothing |
| Screen.Column | src/chip8screen.c:41 | the display column is below 64, congruent to x + lx modulo 64, and equal to x + lx when that is on screen (wrap, never clip) |
| Screen.Row | src/chip8screen.c:41 | the display row is below 32, congruent to y + ly modulo 32, and equal to y + ly when that is on screen |
| Screen.Toggle | src/chip8screen.c:46 | exactly the addressed pixel is inverted |
| Screen.Screen.Flip | src/chip8screen.c:41-46 | returns the pixel's value before the XOR, and the grid becomes `Toggle` of the old grid |
| Screen.Screen.DrawBit | src/chip8screen.c:36-46 | one step of the inner loop: grid and collision flag go from their values after k steps to their values after k + 1 |
| Screen.Screen.DrawRow | src/chip8screen.c:34-47 | the eight steps of one sprite row, most significant bit first, with the loop invariant that grid and flag match the step-indexed specification |
| Screen.Screen.DrawSprite | src/chip8screen.c:27-51 | the grid becomes `Drawn(old grid, x, y, sprite[..num])` and the result equals `Collides(old grid, x, y, sprite[..num])` |
| Screen.PartialStep | src/chip8screen.c:36-46 | one loop step inverts the pixel under its bit when the bit is set and leaves the grid alone otherwise |
| Screen.CollidedStep | src/chip8screen.c:41-44 | the flag after one more step is set exactly when it was already set or the step toggles a pixel that is currently on |
| Screen.TargetsUnique | src/chip8screen.c:41 | with at most 32 rows, two different loop steps never land on the same pixel |
| Screen.CountAtMostOne | src/chip8screen.c:31-48 | with at most 32 rows, every pixel is hit once if some step targets it and otherwise not at all |
| Screen.TargetedBySomeStep | src/chip8screen.c:31-35 | "some loop step targets the pixel" and "some set bit (row, column) targets the pixel" are the same condition |
| Screen.DrawTogglesTargeted | src/chip8screen.c:27-51 | a sprite of at most 32 rows toggles exactly the pixels one of its set bits targets |
| Screen.CollidesIffTargetedPixelOn | src/chip8screen.c:27-51 | a sprite of at most 32 rows collides if and only if one of its targeted pixels was on |
| Screen.DrawTwiceRestores | src/chip8screen.c:27-51 | drawing the same sprite twice at the same place gives back the original grid, for any number of rows |
| Screen.DrawTwiceCollides | src/chip8screen.c:27-51 | if the sprite hits any pixel, one of two identical draws in succession reports a collision |
| Screen.BlankSpriteIsNoOp | src/chip8screen.c:27-51 | an empty or all-zero sprite leaves the grid unchanged and reports no collision |
| Screen.SecondDrawCollidesIff | src/chip8screen.c:27-51 | with at most 32 rows, the second of two identical draws collides if and only if one of the targeted pixels was off before the first draw (so the second draw need not collide) |
| Screen.Drawn | src/chip8screen.c:27-51 | the grid after the whole draw loop (only `IsGrid` in its own ensures); its meaning is stated by `Screen.DrawTogglesTargeted` (exactly the targeted pixels flip), `Screen.DrawTwiceRestores` and `Screen.BlankSpriteIsNoOp`, and `Screen.Screen.DrawSprite` proves the loop leaves the grid equal to it |
| Screen.Collides | src/chip8screen.c:29-50 | the returned collision flag, with no contract of its own; `Screen.CollidesIffTargetedPixelOn` proves it holds exactly when a targeted pixel was on, and `Screen.Screen.DrawSprite` returns it |
| Opcodes.FamilyMask | src/chip8.c:205 | `opcode & 0xF000` on the 16-bit word is the top nibble times 0x1000, so dispatching on it is dispatching on `Family` |
| Opcodes.Family | src/chip8.c:205 | the top nibble, no contract of its own beyond its 0-15 range; `Opcodes.FamilyMask` proves `opcode & 0xF000` is it times 0x1000, `Opcodes.FieldsReassemble` that it is the word's first nibble |
| Opcodes.X | src/chip8.c:201 | `(opcode >> 8) & 0x000F`, no contract of its own beyond its 0-15 range; `Opcodes.FieldsReassemble` proves it is the word's second nibble |
| Opcodes.Y | src/chip8.c:202 | `(opcode >> 4) & 0x000F`, no contract of its own beyond its 0-15 range; `Opcodes.FieldsReassemble` proves it is the word's third nibble |
| Opcodes.N | src/chip8.c:204 | `opcode & 0x000F`, no contract of its own beyond its 0-15 range; `Opcodes.FieldsReassemble` proves it is the word's last nibble |
| Opcodes.KK | src/chip8.c:203 | `opcode & 0x00FF`, no contract of its own beyond its byte range; `Opcodes.FieldsReassemble` proves it is the last two nibbles |
| Opcodes.NNN | src/chip8.c:200 | `opcode & 0x0FFF`, no contract of its own beyond its 12-bit range; `Opcodes.FieldsReassemble` proves it is the last three nibbles |
| Opcodes.FieldsReassemble | src/chip8.c:200-205 | the four nibbles reassemble the word, kk is the low two nibbles and nnn the low three |
| Opcodes.DecodeUnknownIff | src/chip8.c:198-344 | a word decodes to `Unknown` exactly when no case of the dispatch recognises it (four described classes), and `Unknown` keeps the word |
| Opcodes.RegisterSkipsIgnoreLowNibble | src/chip8.c:234-263 | 5xyN and 9xyN decode to the same instruction as 5xy0 and 9xy0 for every N |
| Opcodes.Decode | src/chip8.c:325-344 | no contract of its own: 00E0 and 00EE first, every other word to `DecodeExtended`; `Opcodes.DecodeUnknownIff` states which words it leaves unrecognised, and `Engine.Chip8.Exec` proves that running a word in place is `Apply` of its decoding |
| Opcodes.DecodeExtended | src/chip8.c:198-323 | no contract of its own: the switch on `opcode & 0xF000` (see `Opcodes.FamilyMask`), with family 0 unrecognised; covered by `Opcodes.DecodeUnknownIff` and `Opcodes.RegisterSkipsIgnoreLowNibble` |
| Opcodes.DecodePrefix8 | src/chip8.c:124-196 | no contract of its own: the switch on the last nibble, 0-7 and E recognised; covered by `Opcodes.DecodeUnknownIff` |
| Opcodes.DecodePrefixE | src/chip8.c:292-311 | no contract of its own: the inner switch on the low byte, 9E and A1 recognised; covered by `Opcodes.DecodeUnknownIff` |
| Opcodes.DecodePrefixF | src/chip8.c:57-122 | no contract of its own: the switch on the low byte, the nine F cases recognised; covered by `Opcodes.DecodeUnknownIff` |
| Semantics.SpriteAt | src/chip8.c:285 | the sprite handed to the draw is the n bytes of memory from I |
| Semantics.Low8 | include/chip8registers.h:8 | the store into an `unsigned char` register; `Semantics.Truncations` states what it keeps |
| Semantics.Low16 | include/chip8registers.h:9-10 | the store into the `unsigned short` I or PC; `Semantics.Truncations` states what it keeps |
| Semantics.Truncations | include/chip8registers.h:8-10 | a value that fits is kept, the stored value differs from the computed one by a multiple of 256 (char) or 65536 (short), and a short stored into a char keeps its low byte |
| Semantics.SetV | src/chip8.c:244 | a `V[x] = ...` write: register r becomes b, every other register keeps its value, and nothing outside the registers changes |
| Semantics.SkipIf | src/chip8.c:218-224 | the conditional `PC += 2` of the skips (only `WellFormed` in its own ensures); `Properties.SkipsExactlyWhen` states that PC moves by 2 modulo 2^16 exactly when the condition holds, and `Engine.Chip8.SkipWhen` is proved equal to it |
| Semantics.Apply | src/chip8.c:198-344 | one instruction on the machine (only `WellFormed` in its own ensures); its meaning is stated case by case by `Properties.JumpsSetPc`, `SkipsExactlyWhen`, `AddByteWraps`, `RandomIsMasked`, `CallThenReturn`, `UnrecognisedIsNoOp` and `InputsReadOnlyWhereUsed`, and `Engine.Chip8.Execute` proves the in-place execution equals it |
| Semantics.Draw | src/chip8.c:281-288 | Dxyn on the machine (only `WellFormed` in its own ensures); `Properties.DrawTogglesAndFlags`, `DrawTwiceRestoresDisplay` and `BlankSpriteOnlyClearsFlag` state its meaning, `Engine.Chip8.ExecDraw` is proved equal to it |
| Semantics.ApplyKey | src/chip8.c:292-311 | Ex9E and ExA1 on the machine (only `WellFormed` in its own ensures); `Properties.SkipsExactlyWhen` states when each skips |
| Semantics.ApplyAlu | src/chip8.c:124-196 | the 8xyN group (only `WellFormed` in its own ensures); `Properties.LogicKeepsFlag` and `LogicIdentities` state 8xy0-8xy3, the lemmas on the next five rows the arithmetic cases |
| Semantics.AddRegs | src/chip8.c:154-163 | 8xy4 (only `WellFormed` in its own ensures); `Properties.AddCarries` states the wrapped sum and the carry |
| Semantics.SubRegs | src/chip8.c:165-173 | 8xy5 (only `WellFormed` in its own ensures); `Properties.SubtractsStrict` states the strict comparison and the wrapped difference |
| Semantics.ShiftRight | src/chip8.c:175-180 | 8xy6 (only `WellFormed` in its own ensures); `Properties.ShiftsRight` states the flag and the halved value |
| Semantics.SubRegsReversed | src/chip8.c:182-187 | 8xy7 (only `WellFormed` in its own ensures); `Properties.SubtractsReversed` states the flag and the wrapped difference |
| Semantics.ShiftLeft | src/chip8.c:189-194 | 8xyE (only `WellFormed` in its own ensures); `Properties.ShiftsLeft` states the 0-or-128 flag and the doubled value |
| Semantics.ApplyMisc | src/chip8.c:57-122 | the FxKK group (only `WellFormed` in its own ensures); `Properties.KeyWaitStoresKey`, `TimersAndIndex`, `GlyphAddress`, `BcdDigits`, `StoreUpToX` and `LoadUpToX` state its cases |
| Semantics.BcdBlock | src/chip8.c:95-103 | the memory after Fx33 keeps its size; `Properties.BcdDigits` states the three digits and that nothing else changes |
| Semantics.StoreBlock | src/chip8.c:106-112 | the memory after Fx55 keeps its size; `Properties.StoreUpToX` and `StoreLoadRoundTrip` state its contents |
| Semantics.LoadBlock | src/chip8.c:114-120 | the registers after Fx65 keep their number; `Properties.LoadUpToX` and `StoreLoadRoundTrip` state their contents |
| Semantics.Next | src/chip8.c:325-344 | `chip8_exec` on a word: `Apply` of its decoding; `Engine.Chip8.Exec` is proved equal to it |
| Semantics.Zeroed | src/chip8.c:29 | the memset (only `WellFormed` in its own ensures); `Engine.Chip8.Zero` is proved to produce it and `Properties.InitialMachine` states its fields |
| Semantics.Initial | src/chip8.c:27-31 | the machine after init (only `WellFormed` in its own ensures); `Properties.InitialMachine` states every field and `Engine.Chip8.Init` is proved to produce it |
| Semantics.Loaded | src/chip8.c:33-37 | the machine after load (only `WellFormed` in its own ensures); `Properties.LoadPlacesProgram` and `FontSurvivesLoad` state its memory and `Engine.Chip8.Load` is proved to produce it |
| Semantics.Booted | src/main.c:40-41 | the corrected start, init and load then PC at 0x200 (only `WellFormed` in its own ensures); `Properties.BootedRunsProgram` states it and `Engine.Chip8.Boot` is proved to produce it |
| Semantics.Fetch | src/main.c:137 | no contract of its own; `Properties.FetchIsBigEndian` states that the word is memory[PC] * 256 + memory[PC + 1] |
| Semantics.Fetched | src/main.c:138 | PC += 2 modulo 2^16 (only `WellFormed` in its own ensures); `Properties.StepAdvancesFirst` states its effect on CALL and the skips |
| Semantics.Step | src/main.c:137-139 | one turn (only `WellFormed` in its own ensures); `Properties.StepAdvancesFirst` states the order fetch, advance, execute, and `Engine.Chip8.Step` is proved equal to it |
| Semantics.Run | src/main.c:62-141 | n turns of the loop: no turns give back the machine, and a finished run is well formed; `Properties.RunThen`, `RunsCompose` and `SlidesOverZeros` state how runs compose |
| Engine.Chip8.Init | src/chip8.c:27-31 | the machine becomes `Initial()`: everything zero, then the font at address 0 |
| Engine.Chip8.Zero | src/chip8.c:29 | the memset: the machine becomes `Zeroed()` |
| Engine.Chip8.ZeroMemory | src/chip8.c:29 | every memory cell becomes 0 and nothing else changes |
| Engine.Chip8.ZeroRegisters | src/chip8.c:29 | every data register becomes 0 and nothing else changes |
| Engine.Chip8.ReleaseKeys | src/chip8.c:29 | every key becomes released and nothing else changes |
| Engine.Chip8.ResetFields | src/chip8.c:29 | I, PC, both timers and the stack pointer become 0 and nothing else changes |
| Engine.Chip8.CopyFont | src/chip8.c:30 | memory becomes the font followed by the old memory from address 80 |
| Engine.Chip8.Load | src/chip8.c:33-37 | requires the source's strict bound; the machine becomes `Loaded(old, buf)` |
| Engine.Chip8.Boot | src/main.c:40-41 | init, load and a jump to the load address: the machine becomes `Booted(buf)` (the corrected start, see Findings) |
| Engine.Chip8.SetMemory | src/chip8.c:100-102 | one write at an in-range address, nothing else changes |
| Engine.Chip8.SetRegister | src/chip8.c:244 | one `V[x] = ...` write in place: the machine becomes `SetV(old, r, b)` |
| Engine.Chip8.Exec | src/chip8.c:325-344 | requires `Semantics.Defined`'s in-range conditions (see Left out); the machine becomes `Next(old, opcode, key, rnd)`, i.e. `Apply` of the decoded word |
| Engine.Chip8.Execute | src/chip8.c:198-323 | the in-place execution of any decoded instruction equals `Apply` |
| Engine.Chip8.ExecControl | src/chip8.c:207-337 | 00EE, 1nnn, 2nnn and Bnnn move the machine as `Apply` says |
| Engine.Chip8.Return | src/chip8.c:335-337 | PC becomes the top of the stack, which is removed; nothing else changes |
| Engine.Chip8.Jump | src/chip8.c:207-210 | PC becomes the target and nothing else changes |
| Engine.Chip8.CallSub | src/chip8.c:212-216 | PC (already advanced past the CALL) is pushed and PC becomes the target |
| Engine.Chip8.ExecSkip | src/chip8.c:218-263 | 3xkk, 4xkk, 5xy0 and 9xy0 move the machine as `Apply` says |
| Engine.Chip8.SkipWhen | src/chip8.c:218-224 | PC += 2 modulo 2^16 when the condition holds, no change otherwise |
| Engine.Chip8.ExecLoad | src/chip8.c:242-279 | 6xkk, 7xkk, Annn and Cxkk move the machine as `Apply` says |
| Engine.Chip8.ExecDisplay | src/chip8.c:281-332 | 00E0 and Dxyn move the machine as `Apply` says |
| Engine.Chip8.ClearScreen | src/chip8.c:330-332 | 00E0: the display becomes `Blank()` and nothing else in the machine changes |
| Engine.Chip8.ExecDraw | src/chip8.c:281-288 | Dxyn: the display becomes the drawn grid and VF the collision flag, as `Draw` says |
| Engine.Chip8.DrawAt | src/chip8.c:285-286 | the call of the sprite draw on the bytes at I leaves the grid `Drawn` and returns `Collides` |
| Engine.Chip8.ExecPrefixE | src/chip8.c:292-311 | ExKK moves the machine as `Apply` says |
| Engine.Chip8.ExecKey | src/chip8.c:295-309 | requires Vx < 16; skips when key Vx is down (Ex9E) or up (ExA1) |
| Engine.Chip8.ExecPrefix8 | src/chip8.c:253-255 | 8xyN moves the machine as `Apply` says |
| Engine.Chip8.ExecAlu | src/chip8.c:124-196 | the arithmetic group, by the last nibble |
| Engine.Chip8.ExecAdd | src/chip8.c:154-163 | sum into a wide temporary, VF := 0, VF := 1 on carry, Vx := low byte: the machine becomes `AddRegs` |
| Engine.Chip8.ExecSub | src/chip8.c:165-173 | VF := 0, VF := 1 when Vx > Vy, Vx := Vx - Vy mod 256: the machine becomes `SubRegs` |
| Engine.Chip8.ExecShr | src/chip8.c:175-180 | VF := Vx & 1, then Vx := Vx / 2: the machine becomes `ShiftRight` |
| Engine.Chip8.ExecSubn | src/chip8.c:182-187 | VF := (Vy > Vx), then Vx := Vy - Vx mod 256: the machine becomes `SubRegsReversed` |
| Engine.Chip8.ExecShl | src/chip8.c:189-194 | VF := Vx & 0x80, then Vx := 2 Vx mod 256: the machine becomes `ShiftLeft` |
| Engine.Chip8.ExecPrefixF | src/chip8.c:313-315 | FxKK moves the machine as `Apply` says |
| Engine.Chip8.ExecMisc | src/chip8.c:57-122 | the F group, by the low byte, is `ApplyMisc` |
| Engine.Chip8.SetDelayTimer | src/chip8.c:73-76 | the delay timer takes the value and nothing else changes |
| Engine.Chip8.SetSoundTimer | src/chip8.c:78-81 | the sound timer takes the value and nothing else changes |
| Engine.Chip8.SetIndex | src/chip8.c:265-268 | I takes the value and nothing else changes |
| Engine.Chip8.StoreBcd | src/chip8.c:93-104 | the three digit bytes are written at I, I+1, I+2 and nothing else changes |
| Engine.Chip8.StoreRegisters | src/chip8.c:106-112 | the loop stores V0..Vx, x included, at I onwards; the memory becomes `StoreBlock` |
| Engine.Chip8.LoadRegisters | src/chip8.c:114-120 | the loop loads V0..Vx, x included, from I onwards; the registers become `LoadBlock` |
| Engine.Chip8.Step | src/main.c:137-139 | fetch the big-endian word at PC, PC += 2, execute: the machine becomes `Semantics.Step(old)` |
| Properties.LowBit | src/chip8.c:178 | `Vx & 0x01` is the parity of Vx |
| Properties.HighBit | src/chip8.c:192 | `Vx & 0x80` is 0x80 when Vx >= 128 and 0 otherwise |
| Properties.MaskedWithin | src/chip8.c:278 | a byte AND k has no bit outside k |
| Properties.MaskedAllOnes | src/chip8.c:278 | a byte AND k is 0xFF only when both are 0xFF |
| Properties.InitialMachine | src/chip8.c:27-31 | after init: the font at 0..79, zeros from 80 to 4095, all registers, I, PC, timers zero, stack empty, display off, keys released |
| Properties.LoadPlacesProgram | src/chip8.c:33-37 | load puts buf at 0x200, changes no other byte (in particular never the last cell, by the strict bound) and no other field |
| Properties.FontSurvivesLoad | src/chip8.c:27-37 | the font is intact after init and any admissible load |
| Properties.FourDrawsAsThree | src/chip8.c:12-13 | the rows of glyph 4 are those of glyph 3 |
| Properties.FontIsFourWide | src/chip8.c:8-25 | the font table `Semantics.Font` (the constant written byte for byte from the table) has sixteen glyphs of five rows, each row with its low nibble clear; `Properties.InitialMachine`, `FontStart` and `FourDrawsAsThree` state its placement and contents |
| Properties.AddCarries | src/chip8.c:154-163 | Vx := (Vx + Vy) mod 256; for x != F, VF is the carry and VF:Vx is the 9-bit sum; only Vx and VF change |
| Properties.SubtractsStrict | src/chip8.c:165-173 | for x, y != F, VF = 1 iff Vx > Vy (equal gives 0) and Vx wraps; the cases y = F and x = F, where the cleared flag is read; only Vx and VF change |
| Properties.ShiftsRight | src/chip8.c:175-180 | VF is the bit shifted out and 2 Vx' + VF is the old Vx; with x = F the flag ends 0; only Vx and VF change |
| Properties.SubtractsReversed | src/chip8.c:182-187 | VF = (Vy > Vx) and Vx := Vy - Vx mod 256, with the y = F and x = F cases reading the flag just written; only Vx and VF change |
| Properties.ShiftsLeft | src/chip8.c:189-194 | VF is 0 or 128 (never 1), 128 iff Vx >= 128; Vx doubles mod 256 and Vx' + 2 VF is twice the old Vx; only Vx and VF change |
| Properties.LogicKeepsFlag | src/chip8.c:134-152 | 8xy0-8xy3 change Vx alone; VF is not written |
| Properties.LogicIdentities | src/chip8.c:134-152 | 8xy0 copies Vy; XOR of a register with itself gives 0; OR and AND with itself change nothing |
| Properties.SelfCombined | src/chip8.c:139-152 | a byte OR-ed or AND-ed with itself is unchanged and XOR-ed with itself is 0 |
| Properties.AddByteWraps | src/chip8.c:247-250 | 7xkk sets Vx := (Vx + kk) mod 256 and changes nothing else (no carry flag) |
| Properties.LoadsImmediate | src/chip8.c:242-268 | 6xkk sets Vx := kk and Annn sets I := nnn, each changing nothing else |
| Properties.SkipsExactlyWhen | src/chip8.c:218-309 | each of the six skips adds 2 to PC when its condition holds, changes nothing otherwise, and changes the machine if and only if the condition holds |
| Properties.RegisterSkipsIgnoreN | src/chip8.c:234-263 | 5xyN and 9xyN execute identically to 5xy0 and 9xy0 in every state |
| Properties.JumpsSetPc | src/chip8.c:207-273 | JP sets PC to nnn, Bnnn to V0 + nnn (no wrap), CALL pushes the current PC and sets PC to nnn; none adds the fetch increment |
| Properties.CallThenReturn | src/chip8.c:212-337 | RET after CALL gives back the machine as it was before the call |
| Properties.ReturnsUndoCalls | src/chip8.c:335-337 | after any run of CALLs, k RETs leave the machine as after all but the last k CALLs |
| Properties.ReturnsInReverseOrder | src/chip8.c:335-337 | after CALLs to t1..tn, k RETs (0 <= k < n) leave PC at the target of CALL number n - k: each RET lands on the target of the CALL before the one it undoes, so returns come in reverse order |
| Properties.ReturnsRestore | src/chip8.c:212-337 | as many RETs as CALLs restore the machine entirely |
| Properties.BcdDigits | src/chip8.c:93-104 | the three bytes are digits (hundreds <= 2) that spell Vx, and no other byte or field changes |
| Properties.StoreUpToX | src/chip8.c:106-112 | V0..Vx, x included, are at I..I+x, every other byte and field unchanged |
| Properties.LoadUpToX | src/chip8.c:114-120 | V0..Vx, x included, come from I..I+x, the registers above x and every other field unchanged |
| Properties.StoreLoadRoundTrip | src/chip8.c:106-120 | Fx65 after Fx55 (same x) changes nothing, and so does Fx55 after Fx65 |
| Properties.RandomIsMasked | src/chip8.c:275-279 | Vx has no bit outside kk, is never 0xFF (as rand() % 255 < 255), and only Vx changes |
| Properties.KeyWaitStoresKey | src/chip8.c:68-71 | Fx0A stores the key returned by the wait, the failure value -1 as 0xFF, and changes only Vx |
| Properties.InputsReadOnlyWhereUsed | src/chip8.c:198-323 | only Fx0A depends on the key parameter and only Cxkk on the random one |
| Properties.GlyphAddress | src/chip8.c:88-91 | I := 5 Vx, inside the font for every digit below 16, and nothing else changes |
| Properties.TimersAndIndex | src/chip8.c:63-86 | Fx07, Fx15, Fx18 move one value each; Fx1E adds to I modulo 2^16 without touching VF |
| Properties.UnrecognisedIsNoOp | src/chip8.c:319-320 | a word the dispatch does not recognise changes nothing |
| Properties.DrawTogglesAndFlags | src/chip8.c:281-288 | Dxyn toggles exactly the targeted pixels, VF is 1 iff a targeted pixel was on and 0 otherwise, nothing else changes |
| Properties.DrawTwiceRestoresDisplay | src/chip8.c:281-288 | with x, y != F, repeating a Dxyn restores the display and changes only VF |
| Properties.BlankSpriteOnlyClearsFlag | src/chip8.c:281-288 | with n = 0 or an all-zero sprite, Dxyn only sets VF to 0 |
| Properties.FetchIsBigEndian | src/main.c:137 | the fetched word is memory[PC] * 256 + memory[PC + 1] |
| Properties.StepAdvancesFirst | src/main.c:137-139 | PC moves past the word before it runs: CALL pushes PC + 2 and its RET resumes there; a taken skip moves PC by 4, an untaken one by 2 |
| Properties.LoadedBelowProgram | src/chip8.c:27-37 | after init and load, memory holds the font below 80 and zeros from 80 to 0x1FF |
| Properties.SlidesOverZeros | src/main.c:137-139 | over k zero words the run loop only advances PC, by 2k |
| Properties.SlidesToProgram | src/main.c:137-139 | 200 turns from 0x070 over zeros take PC to 0x200 |
| Properties.RunThen | src/main.c:137-139 | a + b turns are a turns followed by b turns (or stop where the first a stop) |
| Properties.RunsCompose | src/main.c:137-139 | a run ending in t followed by a run from t ending in u is one run ending in u |
| Properties.UnrecognisedTurn | src/main.c:137-139 | a turn on a word no case recognises only advances PC by 2 |
| Properties.UntakenSkipTurn | src/chip8.c:257-263 | the word 9090 with V0 = V9 is a skip not taken: one turn only advances PC by 2 |
| Properties.FirstFontTurns | src/chip8.c:9-10 | the words F090, 9090, F020 at address 0 run as three turns that only move PC to 6 |
| Properties.NextFontTurns | src/chip8.c:10 | the words 6020, 2070 at address 6 set V0 to 0x20 and CALL 0x070 from address 8, pushing 0x00A |
| Properties.FontStart | src/chip8.c:9-10 | the first ten font bytes are F0 90 90 90 F0 20 60 20 20 70 |
| Properties.FontAsCode | src/chip8.c:9-10 | from address 0, those ten bytes take five turns: V0 = 0x20, PC = 0x070, stack [0x00A] |
| Properties.FontPrologue | src/main.c:137-139 | 205 turns from address 0 over the font and the zeros below 0x200 reach PC = 0x200 with V0 = 0x20 and stack [0x00A] |
| Properties.StartsInFont | src/main.c:40-41 | as written, after init and load PC is 0, the first word is F090, and the program's first instruction runs only after 205 turns, with V0 = 0x20 and a stale return address |
| Properties.BootedRunsProgram | src/main.c:40-41 | with the corrected start, PC = 0x200, the stack is empty, the font and zero registers are in place, and the first word fetched is the program's own |

## Left out

- SDL window, rendering, event polling, `sleep`, the timer countdown and the "beep" in the main loop of `src/main.c` are I/O and time; none of it is modelled. `Engine.Chip8.Step` is one turn without them.
- `chip8_wait_for_key` blocks on SDL events. The returned virtual key is a parameter (`key`) of Fx0A instead.
- `srand(clock())` and `rand()` in Cxkk are clock and randomness. `rand()`'s result is a parameter (`rnd`); the model keeps the `% 255` and the mask.
- The memory, stack and keyboard helpers are not part of this model. These are `chip8_memory_set`/`get`, `chip8_memory_get_short`, `chip8_stack_push`/`pop`, `chip8_keyboard_is_down` and the keyboard map/down/up functions.
  - Memory is a byte array, the stack a LIFO sequence, the keypad 16 booleans.
  - Each access stays inside its array by a precondition, gathered in `Semantics.Defined` and `Semantics.CanStep`: an address below 4096, a non-empty stack for RET, a key index below 16 for Ex9E and ExA1. These preconditions are not claims about the helpers' own bound checks.
- The keypad is only read. The key map and the down/up notifications that fill it belong to main.c's event loop and are left out.
- The return stack is an unbounded sequence whose length plays the part of SP. Whatever capacity and pointer discipline the stack helpers have is not modelled.
- Engine.Chip8.Step: runs one turn in isolation. It omits the timer decrement and the delay and sound handling that the loop does before the fetch.
- Semantics.Run: gives each of its n turns the same key and random value, and does not decrement the timers. It is stated only for the turns used below: the run that starts in the font.
- Screen.DrawTogglesTargeted and Screen.CollidesIffTargetedPixelOn: stated for sprites of at most 32 rows. Dxyn passes at most 15. With more rows, two rows can land on the same display row; `Screen.Screen.DrawSprite`'s own contract (`Drawn`/`Collides`, counted per pixel) covers any `num`.
- Screen.Screen.DrawSprite: takes x and y as naturals. Every caller passes an `unsigned char` register, and the source's `%` on a negative int is not modelled.
- The bit fields of a word (`>> 8 & 0x000F` and so on) are stated as divisions and remainders on the unsigned word. `Opcodes.FamilyMask` relates the family mask to the top nibble, and `Opcodes.FieldsReassemble` shows the fields split the word; no lemma relates the shift-and-mask expressions bit by bit.
- There is no encoder. The source only decodes, and a word's fields are recovered by `Opcodes.Decode` exactly as the source reads them.

## Findings

| source | as written | input that shows it | evidently intended | confidence | as-written member | corrected member |
|---|---|---|---|---|---|---|
| src/main.c:40-41 | `chip8_init` zeroes the whole record (src/chip8.c:27-31) and `chip8_load` only copies the program (src/chip8.c:33-37); nothing sets PC, so the run loop starts at address 0, inside the font | any program: the loop runs the font bytes F090 9090 F020 6020 2070 as instructions, then 200 zero words, and reaches the program after 205 turns with V0 = 0x20 and 0x00A left on the return stack | PC = 0x200, the load address, before the first fetch, with the registers and stack as init left them | high, not executed | Properties.StartsInFont | Properties.BootedRunsProgram |

The corrected start is `Semantics.Booted`, init and load followed by PC := 0x200. In place it is `Engine.Chip8.Boot`, proved to reach `Booted`.
