/** Properties of one cycle (Chip8::cycle in Chip8.cc) and of short sequences
    of cycles, stated on the value model of Spec.dfy. Each instruction's lemma
    gives the whole state after the cycle, so that it also says what does not
    change. */
module Chip8Properties {
  import opened Chip8Constants
  import opened Chip8Spec
  import opened Chip8Draw

  /** The instruction that the next cycle executes. */
  function Current(s: State): Instruction
    requires WellFormed(s) && s.pc + 1 < MEM_SIZE
  {
    Decode(Opcode(s))
  }

  // ---------------------------------------------------------------------------
  // Fetch, decode and the timer tick

  /** Decoding the opcode fetched from bytes hi, lo: the family and X are the
      nibbles of hi, Y and N the nibbles of lo, NN is lo, NNN is the low nibble
      of hi followed by lo; and the four nibbles put together give the opcode. */
  lemma {:induction false} DecodeWord(hi: uint8, lo: uint8)
    ensures var ins := Decode(Word(hi, lo));
      && ins.family == hi / 0x10 && ins.x == hi % 0x10
      && ins.y == lo / 0x10 && ins.n == lo % 0x10
      && ins.nn == lo && ins.nnn == ins.x * 0x100 + lo
      && ins.family * 0x1000 + ins.x * 0x100 + ins.y * 0x10 + ins.n == Word(hi, lo)
  {
    // the opcode in hexadecimal digits: a b c d
    var w := Word(hi, lo);
    var a, b, c, d := hi / 0x10, hi % 0x10, lo / 0x10, lo % 0x10;
    HexDigit(hi, a, b);
    HexDigit(lo, c, d);
    ThreeHexDigits(w, a, b * 0x100 + lo);
    HexDigit(w, a * 0x100 + b * 0x10 + c, d);
    HexDigit(a * 0x100 + b * 0x10 + c, a * 0x10 + b, c);
  }

  /** n written as q followed by the hexadecimal digit r. */
  lemma {:induction false} HexDigit(n: int, q: int, r: int)
    requires 0 <= r < 0x10 && n == q * 0x10 + r
    ensures n / 0x10 == q && n % 0x10 == r
  {
  }

  /** n written as q followed by the three hexadecimal digits of r. */
  lemma {:induction false} ThreeHexDigits(n: int, q: int, r: int)
    requires 0 <= r < 0x1000 && n == q * 0x1000 + r
    ensures n / 0x1000 == q && n % 0x1000 == r
  {
  }

  /** The opcode is big-endian: memory[pc] holds the family and X, memory[pc + 1]
      holds Y and N. */
  lemma {:induction false} FetchIsBigEndian(s: State)
    requires WellFormed(s) && s.pc + 1 < MEM_SIZE
    ensures var ins, hi, lo := Current(s), s.memory[s.pc], s.memory[s.pc + 1];
      && Opcode(s) == hi as int * 0x100 + lo as int
      && ins.family == hi / 0x10 && ins.x == hi % 0x10
      && ins.y == lo / 0x10 && ins.n == lo % 0x10
      && ins.nn == lo && ins.nnn == ins.x * 0x100 + lo
  {
    DecodeWord(s.memory[s.pc], s.memory[s.pc + 1]);
  }

  /** Only FX15 and FX18 write a timer; after the instruction each timer is
      counted down by one if it is nonzero. */
  lemma {:induction false} TimersCountDown(s: State, r: RandomByte)
    requires Defined(s)
    ensures var ins, s' := Current(s), Step(s, r);
      && s'.delayTimer == Countdown(if ins.family == 0xF && ins.nn == 0x15 then s.registers[ins.x] else s.delayTimer)
      && s'.soundTimer == Countdown(if ins.family == 0xF && ins.nn == 0x18 then s.registers[ins.x] else s.soundTimer)
  {
    var ins := Current(s);
    var t := s.(pc := s.pc + 2);
    var e := Execute(t, ins, r);
    if ins.family == 0x8 {
      assert e == ExecArith(t, ins.x, ins.y, ins.n);
    } else if ins.family == 0xD {
      assert e == DrawSprite(t, ins.x, ins.y, ins.n);
    } else if ins.family == 0xF {
      assert e == ExecMisc(t, ins.x, ins.nn);
    }
  }

  // ---------------------------------------------------------------------------
  // Which instructions change which parts of the state

  /** Memory is written only by FX33 and FX55, the display only by 00E0 and
      DXYN, the stack only by 2NNN and 00EE, and index only by ANNN, FX1E and
      FX29. */
  lemma {:induction false} StepFrame(s: State, r: RandomByte)
    requires Defined(s)
    ensures var ins, s' := Current(s), Step(s, r);
      && (s'.memory != s.memory ==> ins.family == 0xF && (ins.nn == 0x33 || ins.nn == 0x55))
      && (s'.display != s.display ==> (ins.family == 0x0 && ins.nnn == 0x0E0) || ins.family == 0xD)
      && (s'.callStack != s.callStack ==> ins.family == 0x2 || (ins.family == 0x0 && ins.nnn == 0x0EE))
      && (s'.index != s.index ==> ins.family == 0xA || (ins.family == 0xF && (ins.nn == 0x1E || ins.nn == 0x29)))
      && s'.keypad == s.keypad
  {
    var ins := Current(s);
    var t := s.(pc := s.pc + 2);
    var e := Execute(t, ins, r);
    if ins.family == 0x8 {
      assert e == ExecArith(t, ins.x, ins.y, ins.n);
    } else if ins.family == 0xD {
      assert e == DrawSprite(t, ins.x, ins.y, ins.n);
    } else if ins.family == 0xF {
      assert e == ExecMisc(t, ins.x, ins.nn);
    }
  }

  // ---------------------------------------------------------------------------
  // Plain stores

  /** 6XNN, ANNN, CXNN, FX07, FX15, FX18 and FX33 each store one value (a
      register, the index, a timer, or three digits in memory) and change
      nothing else; the tick then applies to the new timers. */
  lemma {:induction false} SimpleStores(s: State, r: RandomByte)
    requires Defined(s)
    requires var ins := Current(s);
      || ins.family == 0x6 || ins.family == 0xA || ins.family == 0xC
      || (ins.family == 0xF && ins.nn in {0x07, 0x15, 0x18, 0x33})
    ensures var ins := Current(s);
      var t, x, vx := s.(pc := s.pc + 2), ins.x, s.registers[ins.x];
      Step(s, r) == Tick(
        if ins.family == 0x6 then t.(registers := s.registers[x := ins.nn])
        else if ins.family == 0xA then t.(index := ins.nnn)
        else if ins.family == 0xC then t.(registers := s.registers[x := BitAnd(r, ins.nn)])
        else if ins.nn == 0x07 then t.(registers := s.registers[x := s.delayTimer])
        else if ins.nn == 0x15 then t.(delayTimer := vx)
        else if ins.nn == 0x18 then t.(soundTimer := vx)
        else t.(memory := StoreDigits(s.memory, s.index, vx)))
  {
    var ins := Current(s);
    var t := s.(pc := s.pc + 2);
    if ins.family == 0xF {
      assert Execute(t, ins, r) == ExecMisc(t, ins.x, ins.nn);
    }
  }

  // ---------------------------------------------------------------------------
  // Jumps, calls and returns

  /** 1NNN jumps to NNN and BNNN to V0 + NNN; nothing else changes. */
  lemma {:induction false} Jumps(s: State, r: RandomByte)
    requires Defined(s) && (Current(s).family == 0x1 || Current(s).family == 0xB)
    ensures var ins := Current(s);
      Step(s, r) == Tick(s).(pc := if ins.family == 0x1 then ins.nnn else s.registers[0] + ins.nnn)
  {
  }

  /** 2NNN pushes the address of the next instruction and jumps to NNN. */
  lemma {:induction false} CallPushesReturnAddress(s: State, r: RandomByte)
    requires Defined(s) && Current(s).family == 0x2
    ensures Step(s, r) == Tick(s).(pc := Current(s).nnn, callStack := s.callStack + [s.pc + 2])
  {
  }

  /** 00EE is defined exactly when the stack holds a return address. */
  lemma {:induction false} ReturnNeedsFrame(s: State)
    requires WellFormed(s) && s.pc + 1 < MEM_SIZE && Opcode(s) == 0x00EE
    ensures Defined(s) <==> |s.callStack| > 0
  {
    assert Current(s).family == 0 && Current(s).nnn == 0x0EE;
  }

  /** A call whose target is a return: the two cycles come back to the
      instruction after the call with the stack as it was, and only the timers
      have moved. */
  lemma {:induction false} CallThenReturn(s: State, r1: RandomByte, r2: RandomByte)
    requires Defined(s) && Current(s).family == 0x2
    requires Current(s).nnn + 1 < MEM_SIZE
    requires s.memory[Current(s).nnn] == 0x00 && s.memory[Current(s).nnn + 1] == 0xEE
    ensures Defined(Step(s, r1))
    ensures Step(Step(s, r1), r2) == Tick(Tick(s)).(pc := s.pc + 2)
  {
    var t := Step(s, r1);
    CallPushesReturnAddress(s, r1);
    assert Opcode(t) == 0x00EE;
    assert Current(t).family == 0 && Current(t).nnn == 0x0EE;
    assert (s.callStack + [s.pc + 2])[..|s.callStack|] == s.callStack;
  }

  // ---------------------------------------------------------------------------
  // Conditional skips

  /** The instructions whose only effect is a conditional skip. */
  predicate SkipInstruction(ins: Instruction) {
    || ins.family == 0x3 || ins.family == 0x4 || ins.family == 0x5 || ins.family == 0x9
    || (ins.family == 0xE && (ins.nn == 0x9E || ins.nn == 0xA1))
  }

  /** When each of them skips: 3XNN if Vx == NN, 4XNN if Vx != NN, 5XY0 if
      Vx == Vy, 9XY0 if Vx != Vy, EX9E if key Vx is pressed, EXA1 if it is not. */
  predicate SkipCondition(s: State, ins: Instruction)
    requires WellFormed(s) && Decoded(ins) && SkipInstruction(ins)
    requires ins.family == 0xE ==> s.registers[ins.x] < KEYPAD_SIZE
  {
    var vx, vy := s.registers[ins.x], s.registers[ins.y];
    match ins.family
    case 0x3 => vx == ins.nn
    case 0x4 => vx != ins.nn
    case 0x5 => vx == vy
    case 0x9 => vx != vy
    case 0xE => if ins.nn == 0x9E then s.keypad[vx] != 0 else s.keypad[vx] == 0
  }

  /** A skip instruction adds 2 more to pc exactly when its condition holds,
      and changes nothing else. */
  lemma {:induction false} ConditionalSkips(s: State, r: RandomByte)
    requires Defined(s) && SkipInstruction(Current(s))
    ensures var ins := Current(s);
      ins.family == 0xE ==> s.registers[ins.x] < KEYPAD_SIZE
    ensures var ins := Current(s);
      Step(s, r) == Tick(s).(pc := if SkipCondition(s, ins) then s.pc + 4 else s.pc + 2)
  {
    var ins := Current(s);
    if ins.family == 0xE {
      assert Execute(s.(pc := s.pc + 2), ins, r) == ExecKey(s.(pc := s.pc + 2), ins.x, ins.nn);
    }
  }

  /** FX0A: with no key pressed pc is moved back onto the instruction, which is
      therefore fetched again; with a key pressed execution goes on. */
  lemma {:induction false} WaitForKey(s: State, r: RandomByte)
    requires Defined(s) && Current(s).family == 0xF && Current(s).nn == 0x0A
    ensures Step(s, r) == Tick(s).(pc := if AnyKeyPressed(s.keypad) then s.pc + 2 else s.pc)
    ensures !AnyKeyPressed(s.keypad) ==> Opcode(Step(s, r)) == Opcode(s)
  {
    var ins := Current(s);
    assert Execute(s.(pc := s.pc + 2), ins, r) == ExecMisc(s.(pc := s.pc + 2), ins.x, ins.nn);
  }

  // ---------------------------------------------------------------------------
  // Additions and their flags

  /** 7XNN: Vx becomes the sum mod 256, and then VF is set to whether the sum
      reached 255; no other register changes. When X is F the flag wins. */
  lemma {:induction false} AddImmediateFlag(s: State, r: RandomByte)
    requires Defined(s) && Current(s).family == 0x7
    ensures var ins, s' := Current(s), Step(s, r);
      var sum := s.registers[ins.x] as int + ins.nn as int;
      && s'.registers[FLAG] == (if sum >= 255 then 1 else 0)
      && (ins.x != FLAG ==> s'.registers[ins.x] == sum % 0x100)
      && (forall j :: 0 <= j < NUM_REGISTERS && j != ins.x && j != FLAG ==> s'.registers[j] == s.registers[j])
      && s' == Tick(s).(pc := s.pc + 2, registers := s'.registers)
  {
  }

  /** The flag of 7XNN and 8XY4 is set by a sum of exactly 255, which does not
      overflow a byte. */
  lemma {:induction false} CarryFlagAt255()
    ensures var regs := seq(NUM_REGISTERS, j => if j == 0 then 255 else 0);
      && AddImmediate(regs, 0, 0)[0] == 255 && AddImmediate(regs, 0, 0)[FLAG] == 1
      && Arith(regs, 0, 1, 4)[0] == 255 && Arith(regs, 0, 1, 4)[FLAG] == 1
  {
  }

  /** 8XY4: Vx becomes (Vx + Vy) mod 256 and then VF whether the sum reached 255. */
  lemma {:induction false} AddRegistersFlag(regs: seq<uint8>, x: nat, y: nat)
    requires |regs| == NUM_REGISTERS && x < NUM_REGISTERS && y < NUM_REGISTERS
    ensures var r, sum := Arith(regs, x, y, 4), regs[x] as int + regs[y] as int;
      && r[FLAG] == (if sum >= 255 then 1 else 0)
      && (x != FLAG ==> r[x] == sum % 0x100)
      && forall j :: 0 <= j < NUM_REGISTERS && j != x && j != FLAG ==> r[j] == regs[j]
  {
  }

  /** FX1E: index becomes (index + Vx) mod 65536, and VF whether the sum reached
      65535; nothing else changes. */
  lemma {:induction false} AddIndexFlag(s: State, r: RandomByte)
    requires Defined(s) && Current(s).family == 0xF && Current(s).nn == 0x1E
    ensures var ins := Current(s);
      var sum := s.index as int + s.registers[ins.x] as int;
      Step(s, r) == Tick(s).(pc := s.pc + 2, index := sum % 0x1_0000,
                             registers := s.registers[FLAG := if sum >= 65535 then 1 else 0])
  {
    var ins := Current(s);
    assert Execute(s.(pc := s.pc + 2), ins, r) == ExecMisc(s.(pc := s.pc + 2), ins.x, ins.nn);
  }

  // ---------------------------------------------------------------------------
  // Subtractions and shifts: VF is written first

  /** 8XY5 and 8XY7: VF gets the borrow (Vy > Vx for 8XY5, Vx > Vy for 8XY7)
      and then Vx the wrapped difference, read from the updated registers.
      When X is F the difference overwrites the borrow; when Y is F the
      subtrahend (or minuend) is the borrow just written, not the old VF. */
  lemma {:induction false} SubtractFlagOrder(regs: seq<uint8>, x: nat, y: nat)
    requires |regs| == NUM_REGISTERS && x < NUM_REGISTERS && y < NUM_REGISTERS
    ensures var r5, r7 := Arith(regs, x, y, 5), Arith(regs, x, y, 7);
      var b5, b7 := (if regs[y] > regs[x] then 1 else 0), (if regs[x] > regs[y] then 1 else 0);
      && (x != FLAG && y != FLAG ==>
            && r5[x] == (regs[x] as int - regs[y] as int) % 0x100 && r5[FLAG] == b5
            && r7[x] == (regs[y] as int - regs[x] as int) % 0x100 && r7[FLAG] == b7)
      && (x == FLAG && y != FLAG ==>
            && r5[FLAG] == (b5 - regs[y] as int) % 0x100
            && r7[FLAG] == (regs[y] as int - b7) % 0x100)
      && (x != FLAG && y == FLAG ==>
            && r5[x] == (regs[x] as int - b5) % 0x100 && r5[FLAG] == b5
            && r7[x] == (b7 - regs[x] as int) % 0x100 && r7[FLAG] == b7)
      && (x == FLAG && y == FLAG ==> r5[FLAG] == 0 && r7[FLAG] == 0)
      && forall j :: 0 <= j < NUM_REGISTERS && j != x && j != FLAG ==> r5[j] == regs[j] && r7[j] == regs[j]
  {
  }

  /** The input 80F5 with V0 = 5 and VF = 7: the borrow 1 is written first and
      then subtracted, so V0 becomes 4 rather than (5 - 7) mod 256. */
  lemma {:induction false} SubtractFromFlagExample()
    ensures var regs := [5, 0, 0, 0, 0, 0, 0, 0, 0, 0, 0, 0, 0, 0, 0, 7];
      Arith(regs, 0, FLAG, 5)[0] == 4 && Arith(regs, 0, FLAG, 5)[FLAG] == 1
  {
  }

  /** 8XY6 and 8XYE: VF gets the bit shifted out (bit 0, resp. bit 7) and then
      Vx is shifted. When X is F the shift applies to that bit, so 8FY6 leaves
      VF = 0 and 8FYE leaves VF = 0 or 2. */
  lemma {:induction false} ShiftFlagOrder(regs: seq<uint8>, x: nat, y: nat)
    requires |regs| == NUM_REGISTERS && x < NUM_REGISTERS && y < NUM_REGISTERS
    ensures var r6, rE := Arith(regs, x, y, 6), Arith(regs, x, y, 0xE);
      && (x != FLAG ==>
            && r6[x] == regs[x] / 2 && r6[FLAG] == regs[x] % 2
            && rE[x] == regs[x] as int * 2 % 0x100 && rE[FLAG] == regs[x] / 0x80)
      && (x == FLAG ==> r6[FLAG] == 0 && rE[FLAG] == 2 * (regs[FLAG] / 0x80))
      && forall j :: 0 <= j < NUM_REGISTERS && j != x && j != FLAG ==> r6[j] == regs[j] && rE[j] == regs[j]
  {
  }

  // ---------------------------------------------------------------------------
  // Family 8 falls through to the 9XY0 test

  /** Every 8XYn, known or unknown n, skips exactly when Vx and Vy differ after
      the operation; only registers and pc change. */
  lemma {:induction false} ArithmeticFallsThrough(s: State, r: RandomByte)
    requires Defined(s) && Current(s).family == 0x8
    ensures var ins := Current(s);
      var regs := Arith(s.registers, ins.x, ins.y, ins.n);
      Step(s, r) == Tick(s).(registers := regs, pc := if regs[ins.x] != regs[ins.y] then s.pc + 4 else s.pc + 2)
  {
    var ins := Current(s);
    assert Execute(s.(pc := s.pc + 2), ins, r) == ExecArith(s.(pc := s.pc + 2), ins.x, ins.y, ins.n);
  }

  /** 8XY0 copies Vy into Vx, so the test that follows never skips. */
  lemma {:induction false} CopyNeverSkips(s: State, r: RandomByte)
    requires Defined(s) && Current(s).family == 0x8 && Current(s).n == 0x0
    ensures var ins := Current(s);
      Step(s, r) == Tick(s).(registers := s.registers[ins.x := s.registers[ins.y]], pc := s.pc + 2)
  {
    ArithmeticFallsThrough(s, r);
  }

  /** An 8XYn with no case of its own leaves the registers alone and acts as 9XY0. */
  lemma {:induction false} UnknownArithmeticActsAsSkip(s: State, r: RandomByte)
    requires Defined(s) && Current(s).family == 0x8
    requires Current(s).n !in {0x0, 0x1, 0x2, 0x3, 0x4, 0x5, 0x6, 0x7, 0xE}
    ensures var ins := Current(s);
      Step(s, r) == Tick(s).(pc := if s.registers[ins.x] != s.registers[ins.y] then s.pc + 4 else s.pc + 2)
  {
    ArithmeticFallsThrough(s, r);
  }

  // ---------------------------------------------------------------------------
  // The rest of the instruction set

  /** 00E0 turns every cell off and changes nothing else. */
  lemma {:induction false} ClearScreen(s: State, r: RandomByte)
    requires Defined(s) && Opcode(s) == 0x00E0
    ensures Step(s, r) == Tick(s).(pc := s.pc + 2, display := Blank())
    ensures forall c :: 0 <= c < DISPLAY_SIZE ==> Step(s, r).display[c] == 0
  {
    assert Current(s).family == 0 && Current(s).nnn == 0x0E0;
  }

  /** The opcodes for which the switch of cycle() has no case: 0NNN other than
      00E0 and 00EE, EXNN other than EX9E and EXA1, FXNN other than the nine
      handled ones. (An 8XYn with no case is not among them: it falls through.) */
  predicate NoCase(ins: Instruction) {
    || (ins.family == 0x0 && ins.nnn != 0x0E0 && ins.nnn != 0x0EE)
    || (ins.family == 0xE && ins.nn != 0x9E && ins.nn != 0xA1)
    || (ins.family == 0xF && ins.nn !in {0x07, 0x15, 0x18, 0x1E, 0x0A, 0x29, 0x33, 0x55, 0x65})
  }

  /** Such an opcode only advances pc and ticks the timers. */
  lemma {:induction false} UnknownOnlyTicks(s: State, r: RandomByte)
    requires Defined(s) && NoCase(Current(s))
    ensures Step(s, r) == Tick(s).(pc := s.pc + 2)
  {
    var ins := Current(s);
    var t := s.(pc := s.pc + 2);
    if ins.family == 0xF {
      assert Execute(t, ins, r) == ExecMisc(t, ins.x, ins.nn);
    }
  }

  /** FX29 points index at the glyph of Vx: with the font where the constructor
      puts it, the five bytes at index are the glyph of the digit. */
  lemma {:induction false} FontAddress(s: State, r: RandomByte)
    requires Defined(s) && Current(s).family == 0xF && Current(s).nn == 0x29
    requires s.memory[FONTSET_START_ADDR .. FONTSET_START_ADDR + FONTSET_SIZE] == FONTSET
    ensures var vx := s.registers[Current(s).x];
      && Step(s, r) == Tick(s).(pc := s.pc + 2, index := FONTSET_START_ADDR + FONTSET_CHAR_SIZE * vx)
      && (vx < 16 ==> s.memory[Step(s, r).index .. Step(s, r).index + FONTSET_CHAR_SIZE] == Glyph(vx))
  {
    var ins := Current(s);
    var t := s.(pc := s.pc + 2);
    assert Execute(t, ins, r) == ExecMisc(t, ins.x, ins.nn);
    if s.registers[ins.x] < 16 {
      GlyphInMemory(s.memory, s.registers[ins.x]);
    }
  }

  /** With the font at FONTSET_START_ADDR, the glyph of digit d is the five
      bytes at FONTSET_START_ADDR + 5d. */
  lemma {:induction false} GlyphInMemory(mem: seq<uint8>, d: nat)
    requires |mem| == MEM_SIZE && d < 16
    requires mem[FONTSET_START_ADDR .. FONTSET_START_ADDR + FONTSET_SIZE] == FONTSET
    ensures mem[FONTSET_START_ADDR + FONTSET_CHAR_SIZE * d .. FONTSET_START_ADDR + FONTSET_CHAR_SIZE * d + FONTSET_CHAR_SIZE] == Glyph(d)
  {
    var a := FONTSET_START_ADDR + FONTSET_CHAR_SIZE * d;
    forall j | 0 <= j < FONTSET_CHAR_SIZE
      ensures mem[a .. a + FONTSET_CHAR_SIZE][j] == Glyph(d)[j]
    {
      assert mem[a + j] == mem[FONTSET_START_ADDR .. FONTSET_START_ADDR + FONTSET_SIZE][FONTSET_CHAR_SIZE * d + j];
    }
  }

  // ---------------------------------------------------------------------------
  // FX33, FX55, FX65

  /** FX33 writes the decimal digits of v: each is below 10 and together they
      make up v; the rest of memory is unchanged. */
  lemma {:induction false} DecimalDigits(mem: seq<uint8>, index: int, v: uint8)
    requires 0 <= index && index + 2 < |mem|
    ensures var m := StoreDigits(mem, index, v);
      && |m| == |mem|
      && m[index] < 10 && m[index + 1] < 10 && m[index + 2] < 10
      && 100 * m[index] + 10 * m[index + 1] + m[index + 2] == v
      && forall j :: 0 <= j < |mem| && !(index <= j <= index + 2) ==> m[j] == mem[j]
  {
    assert v / 100 < 3;
    assert 100 * (v / 100) + 10 * (v / 10 % 10) + v % 10 == v;
  }

  /** For example 245 is stored as 2, 4, 5. */
  lemma {:induction false} DecimalDigitsOf245(mem: seq<uint8>)
    requires |mem| == MEM_SIZE
    ensures StoreDigits(mem, 0x300, 245)[0x300 .. 0x303] == [2, 4, 5]
  {
  }

  /** FX55 writes V0 .. Vx to memory[index .. index + x] and nothing else. */
  lemma {:induction false} StoreRegistersFrame(mem: seq<uint8>, index: int, regs: seq<uint8>, x: nat)
    requires 0 <= index && index + x < |mem| && x < |regs|
    ensures var m := StoreRegisters(mem, index, regs, x);
      && |m| == |mem|
      && (forall j :: 0 <= j <= x ==> m[index + j] == regs[j])
      && (forall j :: 0 <= j < |mem| && !(index <= j <= index + x) ==> m[j] == mem[j])
  {
  }

  /** FX65 after FX55 with the same index and x gives back V0 .. Vx. */
  lemma {:induction false} LoadAfterStore(mem: seq<uint8>, index: int, regs: seq<uint8>, x: nat)
    requires 0 <= index && index + x < |mem| && x < |regs|
    ensures LoadRegisters(StoreRegisters(mem, index, regs, x), index, regs, x) == regs
  {
    var m := StoreRegisters(mem, index, regs, x);
    var back := LoadRegisters(m, index, regs, x);
    forall j | 0 <= j < |regs| ensures back[j] == regs[j] {
      if j <= x {
        assert m[index + j] == regs[j];
      }
    }
  }

  /** FX55 as a cycle: memory gets V0 .. Vx at index, nothing else changes. */
  lemma {:induction false} StoreRegistersStep(s: State, r: RandomByte)
    requires Defined(s) && Current(s).family == 0xF && Current(s).nn == 0x55
    ensures Step(s, r) == Tick(s).(pc := s.pc + 2, memory := StoreRegisters(s.memory, s.index, s.registers, Current(s).x))
  {
    var ins := Current(s);
    var t := s.(pc := s.pc + 2);
    assert Execute(t, ins, r) == ExecMisc(t, ins.x, ins.nn);
  }

  /** FX65 as a cycle: V0 .. Vx get memory[index ..], nothing else changes. */
  lemma {:induction false} LoadRegistersStep(s: State, r: RandomByte)
    requires Defined(s) && Current(s).family == 0xF && Current(s).nn == 0x65
    ensures Step(s, r) == Tick(s).(pc := s.pc + 2, registers := LoadRegisters(s.memory, s.index, s.registers, Current(s).x))
  {
    var ins := Current(s);
    var t := s.(pc := s.pc + 2);
    assert Execute(t, ins, r) == ExecMisc(t, ins.x, ins.nn);
  }

  /** An FX55 followed by an FX65 with the same X, where the registers are not
      stored over the FX65 itself: the registers are as before, and memory
      holds V0 .. Vx at index. */
  lemma {:induction false} DumpThenLoad(s: State, r1: RandomByte, r2: RandomByte)
    requires Defined(s) && Current(s).family == 0xF && Current(s).nn == 0x55
    requires s.pc + 3 < MEM_SIZE && s.memory[s.pc + 2] == s.memory[s.pc] && s.memory[s.pc + 3] == 0x65
    requires s.index + Current(s).x < s.pc + 2 || s.pc + 3 < s.index
    ensures Defined(Step(s, r1))
    ensures var s2 := Step(Step(s, r1), r2);
      && s2.registers == s.registers
      && s2.memory == StoreRegisters(s.memory, s.index, s.registers, Current(s).x)
  {
    var x := Current(s).x;
    var s1 := Step(s, r1);
    StoreRegistersStep(s, r1);
    StoreRegistersFrame(s.memory, s.index, s.registers, x);
    assert s1.memory[s1.pc] == s.memory[s.pc] && s1.memory[s1.pc + 1] == 0x65;
    FetchIsBigEndian(s);
    FetchIsBigEndian(s1);
    assert Current(s1).family == 0xF && Current(s1).x == x && Current(s1).nn == 0x65;
    LoadRegistersStep(s1, r2);
    LoadAfterStore(s.memory, s.index, s.registers, x);
  }

  // ---------------------------------------------------------------------------
  // The display stays black and white

  /** A cycle keeps every display cell at 0 or 0xFFFFFFFF. */
  lemma {:induction false} StepKeepsBinary(s: State, r: RandomByte)
    requires Defined(s) && Binary(s.display)
    ensures Binary(Step(s, r).display)
  {
    var ins := Current(s);
    var t := s.(pc := s.pc + 2);
    if ins.family == 0xD {
      assert Execute(t, ins, r) == DrawSprite(t, ins.x, ins.y, ins.n);
      DrawKeepsBinary(t, ins.x, ins.y, ins.n);
    } else {
      StepFrame(s, r);
    }
  }
}
