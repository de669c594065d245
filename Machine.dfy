/** The class Chip8 of Chip8.h with its arrays, and its operations performed in
    place as Chip8.cc performs them. Each operation is proved to leave the
    machine in the state that the corresponding function of Spec.dfy computes
    from the state before, read through Abs(). */
module Chip8Machine {
  import opened Chip8Constants
  import opened Chip8Spec
  import opened Chip8Draw

  class Chip8 {
    const memory: array<uint8>
    const registers: array<uint8>
    const keypad: array<uint8>
    const display: array<uint32>    // row-major, DISPLAY_WIDTH cells per row
    var index: uint16
    var pc: uint16
    var callStack: seq<uint16>      // the top of the stack is the last element
    var delayTimer: uint8
    var soundTimer: uint8

    /** The arrays have the sizes of Chip8.h and the byte arrays are distinct. */
    predicate Valid() {
      && memory.Length == MEM_SIZE && registers.Length == NUM_REGISTERS
      && keypad.Length == KEYPAD_SIZE && display.Length == DISPLAY_SIZE
      && memory != registers && memory != keypad && registers != keypad
    }

    /** The machine as a value. */
    function Abs(): (s: State)
      reads this, memory, registers, keypad, display
      ensures Valid() ==> WellFormed(s)
    {
      State(memory[..], registers[..], index, pc, callStack, keypad[..], display[..], delayTimer, soundTimer)
    }

    /** Chip8::Chip8: the font is copied to FONTSET_START_ADDR, the display and
        the keypad are cleared, pc starts at ROM_START_ADDR and the stack is
        empty. Nothing else is initialised by the source, so nothing else is
        promised here. */
    constructor ()
      ensures Valid()
      ensures fresh(memory) && fresh(registers) && fresh(keypad) && fresh(display)
      ensures memory[FONTSET_START_ADDR .. FONTSET_START_ADDR + FONTSET_SIZE] == FONTSET
      ensures display[..] == Blank()
      ensures forall k :: 0 <= k < KEYPAD_SIZE ==> keypad[k] == 0
      ensures pc == ROM_START_ADDR && callStack == []
    {
      memory := new uint8[MEM_SIZE];
      registers := new uint8[NUM_REGISTERS];
      keypad := new uint8[KEYPAD_SIZE];
      display := new uint32[DISPLAY_SIZE];
      pc := ROM_START_ADDR;
      callStack := [];
      new;
      WriteMemory(FONTSET_START_ADDR, FONTSET);
      ClearDisplay();
      forall k | 0 <= k < KEYPAD_SIZE {
        keypad[k] := 0;
      }
    }

    /** Copies bytes to memory[at ..], leaving the rest of memory alone: the
        font loop of Chip8::Chip8 and the read of Chip8::loadRom. */
    method WriteMemory(at: nat, bytes: seq<uint8>)
      requires Valid() && at + |bytes| <= MEM_SIZE
      modifies memory
      ensures memory[..] == old(memory[..at]) + bytes + old(memory[at + |bytes|..])
    {
      var i := 0;
      while i < |bytes|
        invariant 0 <= i <= |bytes|
        invariant forall j :: 0 <= j < MEM_SIZE ==>
          memory[j] == if at <= j < at + i then bytes[j - at] else old(memory[j])
      {
        memory[at + i] := bytes[i];
        i := i + 1;
      }
      assert memory[..] == old(memory[..at]) + bytes + old(memory[at + |bytes|..]);
    }

    /** memset(display, 0, sizeof(display)), in the constructor and for 00E0. */
    method ClearDisplay()
      requires Valid()
      modifies display
      ensures display[..] == Blank()
    {
      forall c | 0 <= c < DISPLAY_SIZE {
        display[c] := 0;
      }
    }

    /** The size check and copy of Chip8::loadRom: an image larger than the
        program area is refused (the source exits) and memory is left alone;
        otherwise it is copied to ROM_START_ADDR and nothing else changes. */
    method LoadRom(rom: seq<uint8>) returns (loaded: bool)
      requires Valid()
      modifies memory
      ensures loaded <==> |rom| <= ROM_CAPACITY
      ensures loaded ==> memory[..] == old(memory[..ROM_START_ADDR]) + rom + old(memory[ROM_START_ADDR + |rom|..])
      ensures !loaded ==> memory[..] == old(memory[..])
    {
      if |rom| > ROM_CAPACITY {
        return false;
      }
      WriteMemory(ROM_START_ADDR, rom);
      return true;
    }

    /** Chip8::draw: VF is cleared, the origin is read from Vx and Vy, and then
        each set pixel of the sprite toggles its cell, VF collecting whether a
        cell that was on is turned off. */
    method Draw(x: nat, y: nat, height: nat)
      requires Valid() && x < NUM_REGISTERS && y < NUM_REGISTERS && DrawDefined(Abs(), x, y, height)
      modifies registers, display
      ensures Abs() == DrawSprite(old(Abs()), x, y, height)
    {
      ghost var s := Abs();
      ghost var sprite := Sprite(s.memory, s.index, height);
      registers[FLAG] := 0;
      var xx := registers[x] % DISPLAY_WIDTH;
      var yy := registers[y] % DISPLAY_HEIGHT;
      assert xx == OriginX(s.registers, x) && yy == OriginY(s.registers, y);
      BlitStart(sprite, xx, yy, s.display);
      var row := 0;
      while row < height
        invariant 0 <= row <= height
        invariant registers[..] == s.registers[FLAG := if CollidesUpTo(sprite, xx, yy, row, 0, s.display) then 1 else 0]
        invariant display[..] == BlitUpTo(sprite, xx, yy, row, 0, s.display)
      {
        DrawRow(s.registers, s.display, sprite, xx, yy, row);
        row := row + 1;
      }
    }

    /** The inner loop of Chip8::draw: the eight pixels of one sprite row, from
        the display and VF that the rows above left. */
    method DrawRow(ghost regs: seq<uint8>, ghost disp: seq<uint32>, ghost sprite: seq<uint8>, xx: int, yy: int, row: nat)
      requires Valid() && |regs| == NUM_REGISTERS
      requires row < |sprite| && index + row < MEM_SIZE && memory[index + row] == sprite[row]
      requires forall col :: 0 <= col < 8 && SpriteBit(sprite[row], col) == 1 ==> 0 <= CellAddr(xx, yy, row, col) < DISPLAY_SIZE
      requires registers[..] == regs[FLAG := if CollidesUpTo(sprite, xx, yy, row, 0, disp) then 1 else 0]
      requires display[..] == BlitUpTo(sprite, xx, yy, row, 0, disp)
      modifies registers, display
      ensures registers[..] == regs[FLAG := if CollidesUpTo(sprite, xx, yy, row + 1, 0, disp) then 1 else 0]
      ensures display[..] == BlitUpTo(sprite, xx, yy, row + 1, 0, disp)
    {
      var col := 0;
      while col < 8
        invariant 0 <= col <= 8
        invariant registers[..] == regs[FLAG := if CollidesUpTo(sprite, xx, yy, row, col, disp) then 1 else 0]
        invariant display[..] == BlitUpTo(sprite, xx, yy, row, col, disp)
      {
        DrawPixel(regs, disp, sprite, xx, yy, row, col);
        col := col + 1;
      }
      RowDone(sprite, xx, yy, row, disp);
    }

    /** One pass of the inner loop body of Chip8::draw. */
    method DrawPixel(ghost regs: seq<uint8>, ghost disp: seq<uint32>, ghost sprite: seq<uint8>, xx: int, yy: int, row: nat, col: nat)
      requires Valid() && |regs| == NUM_REGISTERS && |disp| == DISPLAY_SIZE
      requires row < |sprite| && col < 8 && index + row < MEM_SIZE && memory[index + row] == sprite[row]
      requires SpriteBit(sprite[row], col) == 1 ==> 0 <= CellAddr(xx, yy, row, col) < DISPLAY_SIZE
      requires registers[..] == regs[FLAG := if CollidesUpTo(sprite, xx, yy, row, col, disp) then 1 else 0]
      requires display[..] == BlitUpTo(sprite, xx, yy, row, col, disp)
      modifies registers, display
      ensures registers[..] == regs[FLAG := if CollidesUpTo(sprite, xx, yy, row, col + 1, disp) then 1 else 0]
      ensures display[..] == BlitUpTo(sprite, xx, yy, row, col + 1, disp)
    {
      var spriteBit := SpriteBit(memory[index + row], col);
      BlitStepDisplay(sprite, xx, yy, row, col, disp);
      BlitStepCollides(sprite, xx, yy, row, col, disp);
      if spriteBit != 0 {
        var cell := (yy + row) * DISPLAY_WIDTH + (xx + col);
        FlagOr(registers[FLAG], display[cell] == 0xFFFF_FFFF);
        registers[FLAG] := BitOr(registers[FLAG], if display[cell] == 0xFFFF_FFFF then 1 else 0);
        display[cell] := Invert(display[cell]);
      }
    }

    /** The key scan of FX0A: whether some key is pressed. */
    method KeyPressed() returns (pressed: bool)
      requires Valid()
      ensures pressed <==> AnyKeyPressed(keypad[..])
    {
      pressed := false;
      var i := 0;
      while i < KEYPAD_SIZE
        invariant 0 <= i <= KEYPAD_SIZE
        invariant forall k :: 0 <= k < i ==> keypad[k] == 0
      {
        if keypad[i] != 0 {
          pressed := true;
          break;
        }
        i := i + 1;
      }
    }

    /** FX55: V0 .. Vx are stored at memory[index ..]. */
    method RegisterDump(x: nat)
      requires Valid() && x < NUM_REGISTERS && index + x < MEM_SIZE
      modifies memory
      ensures memory[..] == StoreRegisters(old(memory[..]), index, registers[..], x)
    {
      var base := index;
      var j := base;
      while j <= base + x
        invariant base <= j <= base + x + 1
        invariant forall k :: 0 <= k < MEM_SIZE ==>
          memory[k] == if base <= k < j then registers[k - base] else old(memory[k])
      {
        memory[j] := registers[j - base];
        j := j + 1;
      }
      ghost var stored := StoreRegisters(old(memory[..]), base, registers[..], x);
      assert forall k :: 0 <= k < MEM_SIZE ==> memory[k] == stored[k];
    }

    /** FX65: V0 .. Vx are loaded from memory[index ..]. */
    method RegisterLoad(x: nat)
      requires Valid() && x < NUM_REGISTERS && index + x < MEM_SIZE
      modifies registers
      ensures registers[..] == LoadRegisters(memory[..], index, old(registers[..]), x)
    {
      var base := index;
      var j := 0;
      while j <= x
        invariant 0 <= j <= x + 1
        invariant forall k :: 0 <= k < NUM_REGISTERS ==>
          registers[k] == if k < j then memory[base + k] else old(registers[k])
      {
        registers[j] := memory[base + j];
        j := j + 1;
      }
      ghost var loaded := LoadRegisters(memory[..], base, old(registers[..]), x);
      assert forall k :: 0 <= k < NUM_REGISTERS ==> registers[k] == loaded[k];
    }

    /** Family 0: clear the display, or return from a subroutine. */
    method System(nnn: uint16)
      requires Valid() && SystemDefined(Abs(), nnn)
      modifies this, display
      ensures Abs() == ExecSystem(old(Abs()), nnn)
    {
      if nnn == 0x0E0 {
        ClearDisplay();
      } else if nnn == 0x0EE {
        pc := callStack[|callStack| - 1];
        callStack := callStack[..|callStack| - 1];
      }
    }

    /** Family 8: the inner switch on n, then the 9XY0 test it falls through to. */
    method Arithmetic(x: nat, y: nat, n: nat)
      requires Valid() && x < NUM_REGISTERS && y < NUM_REGISTERS
      modifies this, registers
      ensures Abs() == ExecArith(old(Abs()), x, y, n)
    {
      ArithRegisters(x, y, n);
      if registers[x] != registers[y] {
        pc := Wrap16(pc + 2);
      }
    }

    /** The inner switch of family 8 on the registers. */
    method ArithRegisters(x: nat, y: nat, n: nat)
      requires Valid() && x < NUM_REGISTERS && y < NUM_REGISTERS
      modifies registers
      ensures registers[..] == Arith(old(registers[..]), x, y, n)
    {
      match n {
        case 0x0 => registers[x] := registers[y];
        case 0x1 => registers[x] := BitOr(registers[x], registers[y]);
        case 0x2 => registers[x] := BitAnd(registers[x], registers[y]);
        case 0x3 => registers[x] := BitXor(registers[x], registers[y]);
        case 0x4 =>
          var sum := registers[x] as int + registers[y] as int;
          registers[x] := Wrap8(sum);
          registers[FLAG] := if sum >= 255 then 1 else 0;
        case 0x5 =>
          registers[FLAG] := if registers[y] > registers[x] then 1 else 0;
          registers[x] := Wrap8(registers[x] as int - registers[y] as int);
        case 0x7 =>
          registers[FLAG] := if registers[x] > registers[y] then 1 else 0;
          registers[x] := Wrap8(registers[y] as int - registers[x] as int);
        case 0x6 =>
          registers[FLAG] := registers[x] % 2;
          registers[x] := registers[x] / 2;
        case 0xE =>
          registers[FLAG] := registers[x] / 0x80;
          registers[x] := Wrap8(registers[x] as int * 2);
        case _ =>
      }
    }

    /** Family E: skip on the state of key Vx. */
    method KeySkip(x: nat, nn: uint8)
      requires Valid() && x < NUM_REGISTERS && KeyDefined(Abs(), x, nn)
      modifies this
      ensures Abs() == ExecKey(old(Abs()), x, nn)
    {
      if nn == 0x9E {
        if keypad[registers[x]] != 0 {
          pc := Wrap16(pc + 2);
        }
      } else if nn == 0xA1 {
        if keypad[registers[x]] == 0 {
          pc := Wrap16(pc + 2);
        }
      }
    }

    /** Family F. */
    method Misc(x: nat, nn: uint8)
      requires Valid() && x < NUM_REGISTERS && MiscDefined(Abs(), x, nn)
      modifies this, memory, registers
      ensures Abs() == ExecMisc(old(Abs()), x, nn)
    {
      if nn == 0x07 {
        registers[x] := delayTimer;
      } else if nn == 0x15 {
        delayTimer := registers[x];
      } else if nn == 0x18 {
        soundTimer := registers[x];
      } else if nn == 0x1E {
        var sum := index as int + registers[x] as int;
        index := Wrap16(sum);
        registers[FLAG] := if sum >= 65535 then 1 else 0;
      } else if nn == 0x0A {
        var pressed := KeyPressed();
        if !pressed {
          pc := Wrap16(pc - 2);
        }
      } else if nn == 0x29 {
        index := FONTSET_START_ADDR + FONTSET_CHAR_SIZE * registers[x];
      } else if nn == 0x33 {
        var v := registers[x];
        memory[index] := v / 100 % 10;
        memory[index + 1] := v / 10 % 10;
        memory[index + 2] := v % 10;
      } else if nn == 0x55 {
        RegisterDump(x);
      } else if nn == 0x65 {
        RegisterLoad(x);
      }
    }

    /** The switch of Chip8::cycle. */
    method Dispatch(ins: Instruction, r: RandomByte)
      requires Valid() && Decoded(ins) && CanExecute(Abs(), ins)
      modifies this, memory, registers, display
      ensures Abs() == Execute(old(Abs()), ins, r)
    {
      match ins.family {
        case 0x0 => System(ins.nnn);
        case 0x1 => pc := ins.nnn;
        case 0x2 =>
          callStack := callStack + [pc];
          pc := ins.nnn;
        case 0x3 =>
          if registers[ins.x] == ins.nn {
            pc := Wrap16(pc + 2);
          }
        case 0x4 =>
          if registers[ins.x] != ins.nn {
            pc := Wrap16(pc + 2);
          }
        case 0x5 =>
          if registers[ins.x] == registers[ins.y] {
            pc := Wrap16(pc + 2);
          }
        case 0x6 => registers[ins.x] := ins.nn;
        case 0x7 =>
          var sum := registers[ins.x] as int + ins.nn as int;
          registers[ins.x] := Wrap8(sum);
          registers[FLAG] := if sum >= 255 then 1 else 0;
        case 0x8 => Arithmetic(ins.x, ins.y, ins.n);
        case 0x9 =>
          if registers[ins.x] != registers[ins.y] {
            pc := Wrap16(pc + 2);
          }
        case 0xA => index := ins.nnn;
        case 0xB => pc := registers[0] + ins.nnn;
        case 0xC => registers[ins.x] := BitAnd(r, ins.nn);
        case 0xD => Draw(ins.x, ins.y, ins.n);
        case 0xE => KeySkip(ins.x, ins.nn);
        case 0xF => Misc(ins.x, ins.nn);
      }
    }

    /** Chip8::cycle: fetch the instruction at pc, advance pc by 2, execute the
        instruction and count the timers down. */
    method Cycle(r: RandomByte)
      requires Valid() && Defined(Abs())
      modifies this, memory, registers, display
      ensures Abs() == Step(old(Abs()), r)
    {
      ghost var s := Abs();
      var opcode := Word(memory[pc], memory[pc + 1]);
      assert opcode == Opcode(s);
      pc := pc + 2;
      assert Abs() == s.(pc := s.pc + 2);
      Dispatch(Decode(opcode), r);
      TickTimers();
    }

    /** The timer update at the end of Chip8::cycle. */
    method TickTimers()
      modifies this
      ensures Abs() == Tick(old(Abs()))
    {
      if delayTimer > 0 {
        delayTimer := delayTimer - 1;
      }
      if soundTimer > 0 {
        soundTimer := soundTimer - 1;
      }
    }
  }

  /** VF |= b, for a VF that holds 0 or 1: it becomes 1 when b holds and stays
      as it was otherwise. */
  lemma {:induction false} FlagOr(v: uint8, b: bool)
    requires v == 0 || v == 1
    ensures BitOr(v, if b then 1 else 0) == if b then 1 else v
  {
  }
}
