# CHIP-8 virtual machine core in Dafny

A model of the execution engine of a small CHIP-8 emulator: the machine class
`Chip8` (`Chip8.h`) with its memory, registers, index and program counter, call
stack, keypad, display and timers, and the operations of `Chip8.cc` — the
constructor, the size check and copy of `loadRom`, the sprite routine `draw` and
the fetch–decode–execute step `cycle`.

The project has two layers:

- **A value model** (`Spec.dfy`, `Blit.dfy`, `Properties.dfy`). The machine
  is a datatype `State`, and one cycle is the function `Step`. It fetches the
  big-endian opcode, advances `pc` by 2, decodes the opcode into an
  `Instruction`, executes it (`Execute`, one case per opcode family) and counts
  the timers down (`Tick`).
- **An imperative model** (`Machine.dfy`). This is the class `Chip8`, with the
  four arrays and the scalar fields of the C++ class. Its methods update them in
  place, with the loops of the source.
  - `Cycle`, `Dispatch`, `System`, `Arithmetic`, `KeySkip`, `Misc`, `Draw` and
    `TickTimers` are proved to leave the machine, read through `Abs()`, in the
    state that the corresponding function computes from the state before.
  - The helpers state their effect on the array they change. `WriteMemory`,
    `LoadRom` and `RegisterDump` state their effect on `memory[..]`.
    `ClearDisplay` states its effect on `display[..]`. `RegisterLoad` and
    `ArithRegisters` state theirs on `registers[..]`. `DrawRow` and `DrawPixel`
    state theirs on the display and VF. `KeyPressed` returns a bool that equals
    `AnyKeyPressed`.
  - `Cycle` is proved equal to `Step`, and `Draw` to `DrawSprite`. `Draw` has
    the nested row and column loops of `draw`.

The model follows the code, including where it departs from common CHIP-8
semantics. Each of these is kept as written:

- 7XNN writes VF. 8XY4 and 7XNN set VF when the sum is at least 255, and FX1E
  when the sum is at least 65535. The threshold is `UINT8_MAX`/`UINT16_MAX`,
  not the first value that overflows.
- 8XY5 and 8XY7 set VF to the borrow (`Vy > Vx`, resp. `Vx > Vy`), not to "no
  borrow".
- Family 8 has no `break` after its inner switch, so every 8XYn, including an
  n with no case, goes on to the 9XY0 test on the updated registers.
- `draw` clears VF before reading the coordinates, so an X or Y of F reads 0.
- `draw` indexes the display flat, as `(yy + row) * 64 + (xx + col)`, and does
  not clip: a pixel past the right edge lands on the next row.
- `FONTSET_CHAR_SIZE` is not defined by `Chip8.h`. It is taken as 5, the height
  of every glyph in `fontset`.

The behaviour that the source leaves undefined becomes preconditions, collected
in `Defined(s)`:

- the two opcode bytes lie in memory;
- 00EE has a return address on the stack;
- EX9E and EXA1 have `Vx < 16`;
- FX33 needs `index + 2 < 4096`;
- FX55 and FX65 need `index + x < 4096`;
- `draw` needs its sprite rows in memory, and needs every cell that a set sprite
  bit lands on to lie in the display.

Bytes, words and display cells are the int ranges `uint8`, `uint16` and
`uint32`. Every wrap-around of the C++ unsigned types is written out with `%`.
The bit operations `|`, `&` and `^` on bytes are computed on `bv8`. The toggle
`*screenBit ^= 0xFFFFFFFF` is `Invert(v) = 0xFFFFFFFF - v`, which for a 32-bit
value is the same number.

The value of `rand() % 255` used by CXNN is a parameter of `Step` and `Cycle`,
of type `RandomByte` (0 to 254).

## Model

| member | source | states |
|---|---|---|
| Chip8Constants.FONTSET | Chip8.h:16-33 | no contract; the constant is the 80 bytes of `fontset` in order, and FontsetLayout and GlyphsAreNarrow state its layout |
| Chip8Spec.BitOr | Chip8.cc:119-121 | no contract; the body is `\|` on the two bytes as `bv8` |
| Chip8Spec.BitAnd | Chip8.cc:122-124 | no contract; the body is `&` on the two bytes as `bv8`, also used by CXNN (line 162) |
| Chip8Spec.BitXor | Chip8.cc:125-127 | no contract; the body is `^` on the two bytes as `bv8` |
| Chip8Spec.Invert | Chip8.cc:56 | no contract; the body is `0xFFFFFFFF − v`, the value of `v ^ 0xFFFFFFFF` for a 32-bit v; BlitTwiceRestores and BlitKeepsBinary state what drawing with it does |
| Chip8Spec.Opcode | Chip8.cc:65 | no contract; the body is `Word(memory[pc], memory[pc+1])`, and FetchIsBigEndian states its value and fields |
| Chip8Spec.Wrap8 | Chip8.cc:106-150 | no contract; the body is `v % 256`, the conversion to `uint8_t` in 7XNN and 8XY4–8XYE |
| Chip8Spec.Wrap16 | Chip8.cc:188-206 | no contract; the body is `v % 65536`, the conversion to `uint16_t` in FX1E, FX0A and the skips' `pc += 2`; the fetch's advance of pc cannot wrap under `Defined`, which demands `pc + 1 < 4096` |
| Chip8Spec.SkipIf | Chip8.cc:94-176 | no contract; the body adds 2 to pc (mod 65536) when the condition holds; ConditionalSkips and ArithmeticFallsThrough state its effect |
| Chip8Spec.SystemDefined | Chip8.cc:81-84 | no contract; the predicate demands a non-empty stack for 00EE, where `top()` and `pop()` are otherwise undefined; ReturnNeedsFrame states it at the cycle level |
| Chip8Spec.KeyDefined | Chip8.cc:168-175 | no contract; the predicate demands `Vx < 16` for EX9E/EXA1, whose `keypad[registers[x]]` reads past the array otherwise |
| Chip8Spec.AnyKeyPressed | Chip8.cc:197-203 | no contract; the predicate holds iff some key is nonzero, and KeyPressed is proved to compute it |
| Chip8Spec.StoreDigits | Chip8.cc:212-217 | no contract; the body writes `v/100%10`, `v/10%10`, `v%10` at index..index+2; DecimalDigits states what they mean |
| Chip8Spec.StoreRegisters | Chip8.cc:220-222 | no contract; memory with V0..Vx at index..index+x; StoreRegistersFrame and LoadAfterStore state its effect |
| Chip8Spec.LoadRegisters | Chip8.cc:223-225 | no contract; registers with V0..Vx taken from index..index+x; LoadAfterStore states its effect |
| Chip8Spec.MiscDefined | Chip8.cc:210-225 | no contract; the predicate demands `index + 2 < 4096` for FX33 and `index + x < 4096` for FX55/FX65, so every memory write lies in the array |
| Chip8Spec.CellAddr | Chip8.cc:52 | no contract; the flat, unclipped cell index `(yy + row) * 64 + (xx + col)`; OffsetOfPixel states how it is inverted |
| Chip8Spec.CollidesUpTo | Chip8.cc:55 | no contract; the predicate holds iff a pixel drawn so far landed on a cell that was 0xFFFFFFFF; BlitStepCollides and BlitTogglesHits state how it evolves |
| Chip8Spec.DrawDefined | Chip8.cc:49-59 | no contract; the predicate demands that the sprite rows lie in memory and that every cell a set bit lands on lies in the display |
| Chip8Spec.Countdown | Chip8.cc:234-235 | no contract; one timer counts down by one when nonzero |
| Chip8Spec.Tick | Chip8.cc:233-235 | no contract; the body applies Countdown to both timers; TimersCountDown states it for a whole cycle |
| Chip8Spec.Defined | Chip8.cc:63-236 | no contract; the predicate demands both opcode bytes in memory and the demands of the decoded instruction; ReturnNeedsFrame and the per-opcode lemmas use it |
| Chip8Spec.WellFormed | Chip8.h:38-46 | no contract; the sequences of a State have the sizes of the arrays of `Chip8.h`, the value-level counterpart of `Valid` |
| Chip8Spec.CanExecute | Chip8.cc:75-231 | no contract; the predicate picks, by the family of the decoded instruction, the demands of SystemDefined, DrawDefined, KeyDefined or MiscDefined; the other families demand nothing |
| Chip8Spec.Toggled | Chip8.cc:49-57 | no contract; the predicate holds iff cell c is the cell of a set sprite bit that the row-major nested loops have already visited before (row, col) |
| Chip8Machine.Chip8.Valid | Chip8.h:38-46 | no contract; the arrays have the sizes of `Chip8.h` and the byte arrays are distinct objects |
| Chip8Constants.FontsetLayout | Chip8.h:14-33 | the font table has 80 = 16 × 5 bytes and is the sixteen glyphs `Glyph(0)` … `Glyph(15)` in order, glyph d at entries 5d .. 5d+4 |
| Chip8Constants.GlyphsAreNarrow | Chip8.h:17-32 | every font byte has a zero low nibble, so every glyph is at most four pixels wide |
| Chip8Constants.Glyph | Chip8.h:16-33 | the glyph of digit d has FONTSET_CHAR_SIZE bytes and lies inside the table |
| Chip8Constants.MemoryMap | Chip8.h:6-14 | the font region 0x50..0x9F lies below the program area, which holds 4096 − 512 = 3584 bytes; the display has 64 × 32 = 2048 cells |
| Chip8Spec.Word | Chip8.cc:65 | the fetched word gives back its high byte (`w / 256`) and its low byte (`w % 256`) |
| Chip8Spec.Decode | Chip8.cc:68-73 | the decoded fields lie in range: four nibbles below 16 and NNN below 0x1000 |
| Chip8Spec.Blank | Chip8.cc:15 | the cleared display has 2048 cells |
| Chip8Spec.ExecSystem | Chip8.cc:76-86 | family 0 keeps the sizes of the machine's arrays |
| Chip8Spec.AddImmediate | Chip8.cc:106-112 | 7XNN keeps the 16 registers |
| Chip8Spec.Arith | Chip8.cc:115-151 | the inner switch of family 8 keeps the 16 registers |
| Chip8Spec.ExecArith | Chip8.cc:114-153 | family 8 with its fall-through keeps the sizes of the arrays |
| Chip8Spec.ExecKey | Chip8.cc:167-176 | family E keeps the sizes of the arrays |
| Chip8Spec.ExecMisc | Chip8.cc:177-227 | family F keeps the sizes of the arrays |
| Chip8Spec.SpriteBit | Chip8.cc:51 | a sprite pixel is 0 or 1 |
| Chip8Spec.OriginX | Chip8.cc:46 | the origin column lies in 0..63 |
| Chip8Spec.OriginY | Chip8.cc:47 | the origin row lies in 0..31 |
| Chip8Spec.Sprite | Chip8.cc:51 | the sprite has `height` rows |
| Chip8Spec.BlitUpTo | Chip8.cc:49-59 | drawing keeps the number of display cells |
| Chip8Spec.DrawSprite | Chip8.cc:42-61 | `draw` keeps the sizes of the arrays |
| Chip8Spec.Execute | Chip8.cc:75-231 | the switch of `cycle` keeps the sizes of the arrays |
| Chip8Spec.Step | Chip8.cc:63-236 | a cycle keeps the sizes of the arrays |
| Chip8Draw.OffsetOfPixel | Chip8.cc:52 | the offset `row * 64 + col` of a pixel from the origin cell gives back row and col |
| Chip8Draw.BlitStart | Chip8.cc:44-49 | before the first pixel the display is unchanged and no collision is recorded |
| Chip8Draw.ToggledStep | Chip8.cc:50-57 | moving to the next pixel adds to the toggled cells exactly the current pixel's cell, when its bit is set, and that cell was not toggled before |
| Chip8Draw.ToggledStepAll | Chip8.cc:50-57 | the same, for every display cell at once |
| Chip8Draw.BlitStepDisplay | Chip8.cc:51-57 | one pixel: a set bit XORs its cell with 0xFFFFFFFF; a clear bit leaves the display alone |
| Chip8Draw.BlitStepCollides | Chip8.cc:54-55 | one pixel: a set bit adds to VF whether its cell was on; a clear bit leaves VF alone |
| Chip8Draw.RowDone | Chip8.cc:49-50 | the end of one sprite row is the start of the next |
| Chip8Draw.ToggledIffHit | Chip8.cc:49-59 | after all rows, a cell has been toggled iff a set sprite bit lands on it |
| Chip8Draw.BlitTogglesHits | Chip8.cc:49-59 | the drawn display inverts exactly the hit cells and keeps every other cell; a collision is recorded iff a hit cell was on |
| Chip8Draw.BlitKeepsBinary | Chip8.cc:56 | drawing keeps every cell at 0 or 0xFFFFFFFF |
| Chip8Draw.BlitTwiceRestores | Chip8.cc:56 | drawing the same pixels twice gives back the display |
| Chip8Draw.DrawOrigin | Chip8.cc:44-47 | the origin is Vx mod 64 and Vy mod 32, read after VF is cleared, so an operand VF gives 0 |
| Chip8Draw.DrawTogglesExactlyTheSprite | Chip8.cc:42-61 | `draw` toggles exactly the cells `(Vy%32+row)*64 + (Vx%64+col)` of set sprite bits, sets VF to 1 iff one of them was on and to 0 otherwise, and changes nothing else |
| Chip8Draw.DrawHitsLieOnDisplay | Chip8.cc:52 | under the precondition of `draw`, every hit cell lies on the display |
| Chip8Draw.DrawKeepsBinary | Chip8.cc:56 | `draw` keeps every cell at 0 or 0xFFFFFFFF |
| Chip8Draw.DrawTwiceRestores | Chip8.cc:42-61 | `draw` can be repeated with the same operands, and doing so restores the display |
| Chip8Draw.DrawOnBlankSetsHits | Chip8.cc:42-61 | on a blank display `draw` sets VF to 0 and turns on exactly the hit cells |
| Chip8Draw.SomeHitIffSomePixel | Chip8.cc:51-54 | a sprite hits some display cell iff it has a set pixel |
| Chip8Draw.DrawOnBlankDisplay | Chip8.cc:42-61 | on a blank display the first draw does not collide, and drawing the same sprite again collides iff the sprite has a set pixel |
| Chip8Machine.Chip8.Abs | Chip8.h:38-46 | a valid machine reads as a well-formed state |
| Chip8Machine.Chip8.constructor | Chip8.cc:9-19 | fresh arrays of the sizes of `Chip8.h`; `fontset` at memory 0x50..0x9F; every display cell and key 0; `pc` = 0x200 (Chip8.h:40); the stack empty |
| Chip8Machine.Chip8.WriteMemory | Chip8.cc:11-12 | the bytes are copied to memory at the given address and the rest of memory is unchanged |
| Chip8Machine.Chip8.ClearDisplay | Chip8.cc:15 | every display cell becomes 0 |
| Chip8Machine.Chip8.LoadRom | Chip8.cc:26-34 | the image is loaded iff it fits in the 3584 bytes from 0x200; if loaded, memory is the old memory with the image at 0x200; otherwise memory is unchanged |
| Chip8Machine.Chip8.Draw | Chip8.cc:42-61 | the nested loops leave the machine in the state `DrawSprite` computes |
| Chip8Machine.Chip8.DrawRow | Chip8.cc:50-58 | the column loop takes display and VF from the start of a sprite row to the start of the next |
| Chip8Machine.Chip8.DrawPixel | Chip8.cc:51-57 | one pass of the loop body takes display and VF from one pixel to the next |
| Chip8Machine.FlagOr | Chip8.cc:55 | `VF \|= b` on a VF of 0 or 1 makes it 1 when b holds and leaves it otherwise |
| Chip8Machine.Chip8.KeyPressed | Chip8.cc:197-203 | the key scan of FX0A answers true iff some key is pressed |
| Chip8Machine.Chip8.RegisterDump | Chip8.cc:220-222 | the loop of FX55 leaves memory as `StoreRegisters` gives it |
| Chip8Machine.Chip8.RegisterLoad | Chip8.cc:223-225 | the loop of FX65 leaves the registers as `LoadRegisters` gives them |
| Chip8Machine.Chip8.System | Chip8.cc:76-86 | family 0 in place equals `ExecSystem` |
| Chip8Machine.Chip8.Arithmetic | Chip8.cc:114-153 | family 8 in place, with its fall-through test, equals `ExecArith` |
| Chip8Machine.Chip8.ArithRegisters | Chip8.cc:115-151 | the inner switch of family 8 in place equals `Arith` |
| Chip8Machine.Chip8.KeySkip | Chip8.cc:167-176 | family E in place equals `ExecKey` |
| Chip8Machine.Chip8.Misc | Chip8.cc:177-227 | family F in place equals `ExecMisc` |
| Chip8Machine.Chip8.Dispatch | Chip8.cc:75-231 | the switch of `cycle` in place equals `Execute` |
| Chip8Machine.Chip8.Cycle | Chip8.cc:63-236 | `cycle` in place equals `Step` |
| Chip8Machine.Chip8.TickTimers | Chip8.cc:233-235 | the timer update in place equals `Tick` |
| Chip8Properties.DecodeWord | Chip8.cc:65-73 | decoding the word of bytes hi, lo: family and X are the nibbles of hi, Y and N those of lo, NN is lo, NNN is X followed by lo, and the four nibbles make up the word again |
| Chip8Properties.HexDigit | Chip8.cc:68-71 | a number written as q followed by a hexadecimal digit r has quotient q and remainder r by 16 |
| Chip8Properties.ThreeHexDigits | Chip8.cc:68-73 | the same for three hexadecimal digits and 0x1000 |
| Chip8Properties.FetchIsBigEndian | Chip8.cc:65-73 | the opcode is `memory[pc] * 256 + memory[pc+1]`, and its fields are the nibbles of those two bytes |
| Chip8Properties.TimersCountDown | Chip8.cc:182-235 | after a cycle each timer is its old value, or Vx for FX15 and FX18, counted down by one if nonzero |
| Chip8Properties.StepFrame | Chip8.cc:75-231 | memory changes only by FX33/FX55, the display only by 00E0/DXYN, the stack only by 2NNN/00EE, index only by ANNN/FX1E/FX29, and the keypad never |
| Chip8Properties.SimpleStores | Chip8.cc:103-227 | 6XNN, ANNN, CXNN, FX07, FX15, FX18 and FX33 each give the whole state after the cycle: only the stored register, index, timer or three memory digits change besides pc, and then the timers tick |
| Chip8Properties.Jumps | Chip8.cc:87-160 | 1NNN sets pc to NNN and BNNN to V0 + NNN; only the timers change besides |
| Chip8Properties.CallPushesReturnAddress | Chip8.cc:90-93 | 2NNN pushes the already advanced pc and jumps to NNN; nothing else but the timers changes |
| Chip8Properties.ReturnNeedsFrame | Chip8.cc:81-84 | 00EE is defined iff the stack is non-empty |
| Chip8Properties.CallThenReturn | Chip8.cc:81-93 | a call to a 00EE returns to the instruction after the call with the stack restored; only the timers differ from the start |
| Chip8Properties.ConditionalSkips | Chip8.cc:94-176 | 3XNN, 4XNN, 5XY0, 9XY0, EX9E and EXA1 add 2 more to pc exactly when their condition holds and change nothing else |
| Chip8Properties.WaitForKey | Chip8.cc:195-206 | FX0A leaves pc on itself, so the same opcode is fetched again, iff no key is pressed; nothing else but the timers changes |
| Chip8Properties.AddImmediateFlag | Chip8.cc:106-112 | 7XNN: Vx becomes the sum mod 256, VF then 1 iff the sum is at least 255, so VF wins for X = F; other registers unchanged |
| Chip8Properties.CarryFlagAt255 | Chip8.cc:106-134 | a sum of exactly 255, which fits in a byte, sets VF for 7XNN and 8XY4 |
| Chip8Properties.AddRegistersFlag | Chip8.cc:128-134 | 8XY4: Vx becomes (Vx+Vy) mod 256, VF then 1 iff the sum is at least 255; other registers unchanged |
| Chip8Properties.AddIndexFlag | Chip8.cc:188-194 | FX1E: index becomes (index+Vx) mod 65536 and VF 1 iff the sum is at least 65535; nothing else but pc and the timers changes |
| Chip8Properties.SubtractFlagOrder | Chip8.cc:135-142 | 8XY5/8XY7 write the borrow to VF first and then the wrapped difference to Vx, read from the updated registers, for every X and Y: for X = F the difference overwrites the borrow; for Y = F the operand is the new borrow, not the old VF; for X = Y = F VF ends 0; other registers keep their values |
| Chip8Properties.SubtractFromFlagExample | Chip8.cc:135-138 | 80F5 with V0 = 5, VF = 7 sets VF = 1 and V0 = 5 − 1 = 4 |
| Chip8Properties.ShiftFlagOrder | Chip8.cc:143-150 | 8XY6/8XYE write the shifted-out bit to VF first and then shift Vx; for X = F this leaves VF = 0 (8FY6) or 0 or 2 (8FYE) |
| Chip8Properties.ArithmeticFallsThrough | Chip8.cc:114-153 | every 8XYn, with or without a case of its own, skips iff Vx ≠ Vy after the operation; only registers, pc and the timers change |
| Chip8Properties.CopyNeverSkips | Chip8.cc:114-153 | 8XY0 copies Vy into Vx and never skips |
| Chip8Properties.UnknownArithmeticActsAsSkip | Chip8.cc:114-153 | an 8XYn with no case keeps the registers and behaves as 9XY0 |
| Chip8Properties.ClearScreen | Chip8.cc:78-80 | 00E0 turns every display cell off and changes nothing else |
| Chip8Properties.UnknownOnlyTicks | Chip8.cc:75-231 | an opcode with no case in its switch only advances pc and ticks the timers |
| Chip8Properties.FontAddress | Chip8.cc:207-209 | FX29 sets index to 0x50 + 5·Vx; with the font loaded, the five bytes there are the glyph of Vx for Vx < 16 |
| Chip8Properties.GlyphInMemory | Chip8.cc:11-12 | with the font at 0x50, the glyph of digit d is the five bytes at 0x50 + 5d |
| Chip8Properties.DecimalDigits | Chip8.cc:210-219 | FX33 writes three decimal digits that make up Vx (100·d1 + 10·d2 + d3 = Vx) and leaves the rest of memory alone |
| Chip8Properties.DecimalDigitsOf245 | Chip8.cc:212-217 | 245 is stored as 2, 4, 5 |
| Chip8Properties.StoreRegistersFrame | Chip8.cc:220-222 | FX55 writes V0..Vx to memory[index..index+x] and nothing outside that range |
| Chip8Properties.LoadAfterStore | Chip8.cc:220-225 | FX65 after FX55 with the same index and x gives back V0..Vx, and keeps the other registers |
| Chip8Properties.StoreRegistersStep | Chip8.cc:220-222 | an FX55 cycle changes only memory (by `StoreRegisters`), pc and the timers |
| Chip8Properties.LoadRegistersStep | Chip8.cc:223-225 | an FX65 cycle changes only the registers (by `LoadRegisters`), pc and the timers |
| Chip8Properties.DumpThenLoad | Chip8.cc:220-225 | an FX55 cycle followed by an FX65 cycle with the same X leaves the registers as they were and V0..Vx in memory at index |
| Chip8Properties.StepKeepsBinary | Chip8.cc:63-236 | a cycle keeps every display cell at 0 or 0xFFFFFFFF |

## Left out

- The SDL front end (`Platform.cc`, `Platform.h`) and `Main.cc` are not part of
  this model. They handle the window, rendering, key events, command-line
  parsing and the wall-clock loop with a floating-point delay.
- The file handling of `loadRom` is left out: opening the file, `tellg`,
  `seekg`, and `exit` on failure. `LoadRom` takes the image as a byte sequence.
  An image that is too large makes `LoadRom` return false with memory unchanged,
  where the source prints a message and exits.
- `rand()` is replaced by the caller-supplied byte `r` below 255.
- The fields that the constructor leaves uninitialised (registers, index,
  the timers, and memory outside the font) are left unconstrained by the
  class constructor too. It promises nothing about them.
- `display` is declared `uint32_t display[64][32]`. `draw` subscripts it with
  the single index `(yy + row) * 64 + (xx + col)`. Read strictly, that
  subscript selects a row of 32 cells, whose address C++ does not convert to
  `uint32_t*`, so the source text does not type-check as written. The model
  takes the flat row-major reading of the index expression. Its display is one
  array of 2048 cells.
- Chip8Spec.DrawDefined: demands a display cell only for pixels whose sprite bit
  is set, because only those cells are dereferenced. The source forms the
  address of every pixel.
- Each `Chip8Spec` function whose only `ensures` is `WellFormed` or a length
  says nothing more about its result by contract. Its behaviour is stated by the
  lemmas of `Chip8Properties` and `Chip8Draw`.
- The identity `0xFFFFFFFF - v == v ^ 0xFFFFFFFF` for 32-bit v, which
  justifies `Invert`, is not proved. Proofs that mix 32-bit vectors with
  integers are beyond the solver budget of this project.
- For CXNN the model states only the value written, `r & NN`. No bound on that
  value is proved, for the same reason on 8 bits.
- The `std::stack` is a sequence with no size limit, like the source's.
- Concurrency and timing do not arise: the core is single-threaded, and the
  timers count once per cycle.
