/** The state of the machine (the fields of class Chip8 in Chip8.h) as a value,
    and what one call of cycle() and of draw() (Chip8.cc) does to it, as
    functions. The class in Machine.dfy performs the same operations in place
    and is proved to agree with these functions. */
module Chip8Spec {
  import opened Chip8Constants

  /** The value rand() % 255 that CXNN masks: a byte below 255. */
  type RandomByte = r: uint8 | r < 255

  datatype State = State(
    memory: seq<uint8>,
    registers: seq<uint8>,
    index: uint16,
    pc: uint16,
    callStack: seq<uint16>, // the top of the stack is the last element
    keypad: seq<uint8>,     // a key is pressed when its entry is nonzero
    display: seq<uint32>,   // row-major, DISPLAY_WIDTH cells per row
    delayTimer: uint8,
    soundTimer: uint8)

  /** The fixed sizes of the arrays of Chip8.h. */
  predicate WellFormed(s: State) {
    && |s.memory| == MEM_SIZE
    && |s.registers| == NUM_REGISTERS
    && |s.keypad| == KEYPAD_SIZE
    && |s.display| == DISPLAY_SIZE
  }

  // ---------------------------------------------------------------------------
  // Bit operations. The source's | & ^ on uint8_t are those of bv8; its shifts
  // by constants are divisions and multiplications by powers of two.

  function BitOr(a: uint8, b: uint8): uint8 {
    ((a as bv8) | (b as bv8)) as uint8
  }

  function BitAnd(a: uint8, b: uint8): uint8 {
    ((a as bv8) & (b as bv8)) as uint8
  }

  function BitXor(a: uint8, b: uint8): uint8 {
    ((a as bv8) ^ (b as bv8)) as uint8
  }

  /** A display cell XORed with 0xFFFFFFFF: for a 32-bit value, its difference
      from 0xFFFFFFFF. */
  function Invert(v: uint32): uint32 {
    0xFFFF_FFFF - v
  }

  // ---------------------------------------------------------------------------
  // Fetch and decode

  /** The 16-bit word whose high byte is hi and whose low byte is lo. */
  function Word(hi: uint8, lo: uint8): (w: uint16)
    ensures w / 0x100 == hi && w % 0x100 == lo
  {
    hi * 0x100 + lo
  }

  /** The instruction at pc: memory[pc] is the high byte, memory[pc + 1] the low byte. */
  function Opcode(s: State): uint16
    requires WellFormed(s) && s.pc + 1 < MEM_SIZE
  {
    Word(s.memory[s.pc], s.memory[s.pc + 1])
  }

  /** The fields cycle() extracts from the opcode before its switch: the four
      nibbles (family, X, Y, N), the low byte NN and the low twelve bits NNN. */
  datatype Instruction = Instruction(family: nat, x: nat, y: nat, n: nat, nn: uint8, nnn: uint16)

  /** The ranges the extracted fields lie in. */
  predicate Decoded(ins: Instruction) {
    && ins.family < 16 && ins.x < NUM_REGISTERS && ins.y < NUM_REGISTERS && ins.n < 16
    && ins.nnn < 0x1000
  }

  /** The source's shifts and masks, (opcode >> 12) & 0xF and so on, as
      divisions and remainders. */
  function Decode(op: uint16): (ins: Instruction)
    ensures Decoded(ins)
  {
    Instruction(op / 0x1000, op / 0x100 % 0x10, op / 0x10 % 0x10, op % 0x10, op % 0x100, op % 0x1000)
  }

  // ---------------------------------------------------------------------------
  // Instruction semantics. Every function below sees pc already advanced past
  // the instruction.

  /** An integer reduced to a byte, as a C++ conversion to uint8_t does. */
  function Wrap8(v: int): uint8 {
    v % 0x100
  }

  /** An integer reduced to 16 bits, as a C++ conversion to uint16_t does. */
  function Wrap16(v: int): uint16 {
    v % 0x1_0000
  }

  /** Skipping the next instruction adds 2 to pc (wrapping at 16 bits). */
  function SkipIf(s: State, cond: bool): State {
    if cond then s.(pc := Wrap16(s.pc + 2)) else s
  }

  /** A display with every cell off. */
  function Blank(): (d: seq<uint32>)
    ensures |d| == DISPLAY_SIZE
  {
    seq(DISPLAY_SIZE, c => 0)
  }

  /** What family 0 demands: a return needs a return address on the stack. */
  predicate SystemDefined(s: State, nnn: uint16) {
    nnn == 0x0EE ==> |s.callStack| > 0
  }

  /** Family 0: 00E0 clears the display, 00EE returns from a subroutine, any
      other 0NNN does nothing. */
  function ExecSystem(s: State, nnn: uint16): (s': State)
    requires WellFormed(s) && SystemDefined(s, nnn)
    ensures WellFormed(s')
  {
    if nnn == 0x0E0 then s.(display := Blank())
    else if nnn == 0x0EE then
      s.(pc := s.callStack[|s.callStack| - 1], callStack := s.callStack[..|s.callStack| - 1])
    else s
  }

  /** 7XNN: the sum is formed in 16 bits, truncated into Vx, and then VF is set
      when the untruncated sum is at least 255. */
  function AddImmediate(regs: seq<uint8>, x: nat, nn: uint8): (r: seq<uint8>)
    requires |regs| == NUM_REGISTERS && x < NUM_REGISTERS
    ensures |r| == NUM_REGISTERS
  {
    var sum: int := regs[x] as int + nn as int;
    regs[x := Wrap8(sum)][FLAG := if sum >= 255 then 1 else 0]
  }

  /** The inner switch of family 8 (8XYn), in the order the source writes the
      registers: where VF is written first, the second step reads the updated
      registers. An n with no case leaves the registers alone. */
  function Arith(regs: seq<uint8>, x: nat, y: nat, n: nat): (r: seq<uint8>)
    requires |regs| == NUM_REGISTERS && x < NUM_REGISTERS && y < NUM_REGISTERS
    ensures |r| == NUM_REGISTERS
  {
    match n
    case 0x0 => regs[x := regs[y]]
    case 0x1 => regs[x := BitOr(regs[x], regs[y])]
    case 0x2 => regs[x := BitAnd(regs[x], regs[y])]
    case 0x3 => regs[x := BitXor(regs[x], regs[y])]
    case 0x4 =>
      var sum: int := regs[x] as int + regs[y] as int;
      regs[x := Wrap8(sum)][FLAG := if sum >= 255 then 1 else 0]
    case 0x5 =>
      var r := regs[FLAG := if regs[y] > regs[x] then 1 else 0];
      r[x := Wrap8(r[x] - r[y])]
    case 0x7 =>
      var r := regs[FLAG := if regs[x] > regs[y] then 1 else 0];
      r[x := Wrap8(r[y] - r[x])]
    case 0x6 =>
      var r := regs[FLAG := regs[x] % 2];
      r[x := r[x] / 2]
    case 0xE =>
      var r := regs[FLAG := regs[x] / 0x80];
      r[x := Wrap8(r[x] * 2)]
    case _ => regs
  }

  /** Family 8: the inner switch, and then, as there is no break after it, the
      9XY0 test on the updated registers. */
  function ExecArith(s: State, x: nat, y: nat, n: nat): (s': State)
    requires WellFormed(s) && x < NUM_REGISTERS && y < NUM_REGISTERS
    ensures WellFormed(s')
  {
    var t := s.(registers := Arith(s.registers, x, y, n));
    SkipIf(t, t.registers[x] != t.registers[y])
  }

  /** What family E demands: the key number in Vx must be a valid keypad index. */
  predicate KeyDefined(s: State, x: nat, nn: uint8)
    requires WellFormed(s) && x < NUM_REGISTERS
  {
    (nn == 0x9E || nn == 0xA1) ==> s.registers[x] < KEYPAD_SIZE
  }

  /** Family E: EX9E skips when key Vx is pressed, EXA1 when it is not. */
  function ExecKey(s: State, x: nat, nn: uint8): (s': State)
    requires WellFormed(s) && x < NUM_REGISTERS && KeyDefined(s, x, nn)
    ensures WellFormed(s')
  {
    if nn == 0x9E then SkipIf(s, s.keypad[s.registers[x]] != 0)
    else if nn == 0xA1 then SkipIf(s, s.keypad[s.registers[x]] == 0)
    else s
  }

  predicate AnyKeyPressed(keypad: seq<uint8>) {
    exists k :: 0 <= k < |keypad| && keypad[k] != 0
  }

  /** FX33: the hundreds, tens and units digits of v at index, index + 1, index + 2. */
  function StoreDigits(mem: seq<uint8>, index: int, v: uint8): seq<uint8>
    requires 0 <= index && index + 2 < |mem|
  {
    mem[index := v / 100 % 10][index + 1 := v / 10 % 10][index + 2 := v % 10]
  }

  /** FX55: memory[index + j] := Vj for j = 0 .. x. */
  function StoreRegisters(mem: seq<uint8>, index: int, regs: seq<uint8>, x: nat): seq<uint8>
    requires 0 <= index && index + x < |mem| && x < |regs|
  {
    seq(|mem|, j requires 0 <= j < |mem| =>
      if index <= j <= index + x then regs[j - index] else mem[j])
  }

  /** FX65: Vj := memory[index + j] for j = 0 .. x. */
  function LoadRegisters(mem: seq<uint8>, index: int, regs: seq<uint8>, x: nat): seq<uint8>
    requires 0 <= index && index + x < |mem| && x < |regs|
  {
    seq(|regs|, j requires 0 <= j < |regs| =>
      if j <= x then mem[index + j] else regs[j])
  }

  /** What family F demands: the memory that FX33, FX55 and FX65 touch must exist. */
  predicate MiscDefined(s: State, x: nat, nn: uint8) {
    && (nn == 0x33 ==> s.index + 2 < MEM_SIZE)
    && (nn == 0x55 || nn == 0x65 ==> s.index + x < MEM_SIZE)
  }

  /** Family F: timers, index arithmetic, key wait, font address, decimal digits,
      register store and load. Any other FXNN does nothing. */
  function ExecMisc(s: State, x: nat, nn: uint8): (s': State)
    requires WellFormed(s) && x < NUM_REGISTERS && MiscDefined(s, x, nn)
    ensures WellFormed(s')
  {
    var vx := s.registers[x];
    if nn == 0x07 then s.(registers := s.registers[x := s.delayTimer])
    else if nn == 0x15 then s.(delayTimer := vx)
    else if nn == 0x18 then s.(soundTimer := vx)
    else if nn == 0x1E then
      var sum: int := s.index as int + vx as int;
      s.(index := Wrap16(sum), registers := s.registers[FLAG := if sum >= 65535 then 1 else 0])
    else if nn == 0x0A then
      if AnyKeyPressed(s.keypad) then s else s.(pc := Wrap16(s.pc - 2))
    else if nn == 0x29 then s.(index := FONTSET_START_ADDR + FONTSET_CHAR_SIZE * vx)
    else if nn == 0x33 then s.(memory := StoreDigits(s.memory, s.index, vx))
    else if nn == 0x55 then s.(memory := StoreRegisters(s.memory, s.index, s.registers, x))
    else if nn == 0x65 then s.(registers := LoadRegisters(s.memory, s.index, s.registers, x))
    else s
  }

  // ---------------------------------------------------------------------------
  // Drawing (DXYN)

  /** The display cell that pixel (row, col) of a sprite whose origin is column
      xx, row yy falls on. The address is flat and unclipped: a pixel right of
      the last column continues on the next row. */
  function CellAddr(xx: int, yy: int, row: int, col: int): int {
    (yy + row) * DISPLAY_WIDTH + (xx + col)
  }

  /** Pixel col of a sprite row, (b >> (7 - col)) & 1: column 0 is the high bit. */
  function SpriteBit(b: uint8, col: nat): (bit: uint8)
    requires col < 8
    ensures bit == 0 || bit == 1
  {
    match col
    case 0 => b / 0x80 % 2
    case 1 => b / 0x40 % 2
    case 2 => b / 0x20 % 2
    case 3 => b / 0x10 % 2
    case 4 => b / 0x08 % 2
    case 5 => b / 0x04 % 2
    case 6 => b / 0x02 % 2
    case 7 => b % 2
  }

  /** The origin column and row: registers x and y read after VF has been cleared,
      reduced modulo the display size. */
  function OriginX(regs: seq<uint8>, x: nat): (xx: int)
    requires |regs| == NUM_REGISTERS && x < NUM_REGISTERS
    ensures 0 <= xx < DISPLAY_WIDTH
  {
    regs[FLAG := 0][x] % DISPLAY_WIDTH
  }

  function OriginY(regs: seq<uint8>, y: nat): (yy: int)
    requires |regs| == NUM_REGISTERS && y < NUM_REGISTERS
    ensures 0 <= yy < DISPLAY_HEIGHT
  {
    regs[FLAG := 0][y] % DISPLAY_HEIGHT
  }

  /** The height sprite rows at memory[index ..]. */
  function Sprite(mem: seq<uint8>, index: uint16, height: nat): (sprite: seq<uint8>)
    requires height == 0 || index + height <= |mem|
    ensures |sprite| == height
  {
    if height == 0 then [] else mem[index .. index + height]
  }

  /** Whether cell c has been toggled once the sprite pixels before (row, col),
      in row-major order, have been drawn. Pixels of one row are eight apart at
      most, so the pixel that lands on c is found from the offset of c from the
      origin: d / DISPLAY_WIDTH is its row and d % DISPLAY_WIDTH its column. */
  predicate Toggled(sprite: seq<uint8>, xx: int, yy: int, row: int, col: int, c: int) {
    var d := c - CellAddr(xx, yy, 0, 0);
    && 0 <= d
    && d % DISPLAY_WIDTH < 8
    && d / DISPLAY_WIDTH < |sprite|
    && (d / DISPLAY_WIDTH < row || (d / DISPLAY_WIDTH == row && d % DISPLAY_WIDTH < col))
    && SpriteBit(sprite[d / DISPLAY_WIDTH], d % DISPLAY_WIDTH) == 1
  }

  /** The display once the pixels before (row, col) have been drawn: each
      toggled cell is XORed with 0xFFFFFFFF. */
  function BlitUpTo(sprite: seq<uint8>, xx: int, yy: int, row: int, col: int, disp: seq<uint32>): (d: seq<uint32>)
    ensures |d| == |disp|
  {
    seq(|disp|, c requires 0 <= c < |disp| =>
      if Toggled(sprite, xx, yy, row, col, c) then Invert(disp[c]) else disp[c])
  }

  /** Whether a pixel before (row, col) has landed on a cell that was on. */
  predicate CollidesUpTo(sprite: seq<uint8>, xx: int, yy: int, row: int, col: int, disp: seq<uint32>) {
    exists c :: 0 <= c < |disp| && Toggled(sprite, xx, yy, row, col, c) && disp[c] == 0xFFFF_FFFF
  }

  /** What draw() demands: the sprite rows lie in memory, and every cell that a
      set sprite bit lands on lies in the display. */
  predicate DrawDefined(s: State, x: nat, y: nat, height: nat)
    requires WellFormed(s) && x < NUM_REGISTERS && y < NUM_REGISTERS
  {
    && (height == 0 || s.index + height <= MEM_SIZE)
    && var xx, yy := OriginX(s.registers, x), OriginY(s.registers, y);
    forall row, col :: 0 <= row < height && 0 <= col < 8 && SpriteBit(s.memory[s.index + row], col) == 1 ==>
      CellAddr(xx, yy, row, col) < DISPLAY_SIZE
  }

  /** draw(x, y, height): clear VF, take the origin from Vx and Vy, XOR the
      sprite onto the display and set VF when a cell that was on is turned off. */
  function DrawSprite(s: State, x: nat, y: nat, height: nat): (s': State)
    requires WellFormed(s) && x < NUM_REGISTERS && y < NUM_REGISTERS && DrawDefined(s, x, y, height)
    ensures WellFormed(s')
  {
    var xx, yy := OriginX(s.registers, x), OriginY(s.registers, y);
    var sprite := Sprite(s.memory, s.index, height);
    s.(registers := s.registers[FLAG := if CollidesUpTo(sprite, xx, yy, height, 0, s.display) then 1 else 0],
       display := BlitUpTo(sprite, xx, yy, height, 0, s.display))
  }

  // ---------------------------------------------------------------------------
  // One cycle

  /** What the decoded instruction demands of the state. */
  predicate CanExecute(s: State, ins: Instruction)
    requires WellFormed(s) && Decoded(ins)
  {
    match ins.family
    case 0x0 => SystemDefined(s, ins.nnn)
    case 0xD => DrawDefined(s, ins.x, ins.y, ins.n)
    case 0xE => KeyDefined(s, ins.x, ins.nn)
    case 0xF => MiscDefined(s, ins.x, ins.nn)
    case _ => true
  }

  /** The switch of cycle(), applied to the state whose pc has been advanced. */
  function Execute(s: State, ins: Instruction, r: RandomByte): (s': State)
    requires WellFormed(s) && Decoded(ins) && CanExecute(s, ins)
    ensures WellFormed(s')
  {
    var x, y, n, nn, nnn := ins.x, ins.y, ins.n, ins.nn, ins.nnn;
    match ins.family
    case 0x0 => ExecSystem(s, nnn)
    case 0x1 => s.(pc := nnn)
    case 0x2 => s.(callStack := s.callStack + [s.pc], pc := nnn)
    case 0x3 => SkipIf(s, s.registers[x] == nn)
    case 0x4 => SkipIf(s, s.registers[x] != nn)
    case 0x5 => SkipIf(s, s.registers[x] == s.registers[y])
    case 0x6 => s.(registers := s.registers[x := nn])
    case 0x7 => s.(registers := AddImmediate(s.registers, x, nn))
    case 0x8 => ExecArith(s, x, y, n)
    case 0x9 => SkipIf(s, s.registers[x] != s.registers[y])
    case 0xA => s.(index := nnn)
    case 0xB => s.(pc := s.registers[0] + nnn)
    case 0xC => s.(registers := s.registers[x := BitAnd(r, nn)])
    case 0xD => DrawSprite(s, x, y, n)
    case 0xE => ExecKey(s, x, nn)
    case 0xF => ExecMisc(s, x, nn)
    case _ => s
  }

  /** A timer after the tick at the end of a cycle: one less when nonzero. */
  function Countdown(t: uint8): uint8 {
    if t > 0 then t - 1 else 0
  }

  /** Each timer counts down by one when it is nonzero. */
  function Tick(s: State): State {
    s.(delayTimer := Countdown(s.delayTimer), soundTimer := Countdown(s.soundTimer))
  }

  /** Everything one cycle needs to stay within the arrays and the stack: both
      bytes of the instruction lie in memory, and the instruction's own demands. */
  predicate Defined(s: State) {
    && WellFormed(s)
    && s.pc + 1 < MEM_SIZE
    && CanExecute(s.(pc := s.pc + 2), Decode(Opcode(s)))
  }

  /** cycle(): fetch, advance pc by 2, execute, tick the timers. */
  function Step(s: State, r: RandomByte): (s': State)
    requires Defined(s)
    ensures WellFormed(s')
  {
    Tick(Execute(s.(pc := s.pc + 2), Decode(Opcode(s)), r))
  }
}
