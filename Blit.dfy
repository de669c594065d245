/** What draw() (Chip8.cc) does to the display and to VF, proved about the
    row-major prefix form BlitUpTo / CollidesUpTo of Spec.dfy: the step lemmas
    that the loops of Chip8.Draw in Machine.dfy follow, the direct description
    of the cells a sprite toggles, and the consequences of XOR drawing. */
module Chip8Draw {
  import opened Chip8Constants
  import opened Chip8Spec

  /** The offset of pixel (row, col) from the origin cell, for col < 8,
      determines the pixel: its quotient by the row width is row, its remainder col. */
  lemma {:induction false} OffsetOfPixel(row: int, col: int)
    requires 0 <= row && 0 <= col < 8
    ensures (row * DISPLAY_WIDTH + col) / DISPLAY_WIDTH == row
    ensures (row * DISPLAY_WIDTH + col) % DISPLAY_WIDTH == col
  {
  }

  /** Before the first pixel no cell has been toggled. */
  lemma {:induction false} BlitStart(sprite: seq<uint8>, xx: int, yy: int, disp: seq<uint32>)
    ensures BlitUpTo(sprite, xx, yy, 0, 0, disp) == disp
    ensures !CollidesUpTo(sprite, xx, yy, 0, 0, disp)
  {
    forall c | 0 <= c < |disp| ensures !Toggled(sprite, xx, yy, 0, 0, c) {
      var d := c - CellAddr(xx, yy, 0, 0);
      assert 0 <= d ==> d / DISPLAY_WIDTH >= 0;
    }
  }

  /** Going from pixel (row, col) to the next one in the row adds at most the
      cell of pixel (row, col), and only when its sprite bit is set. */
  lemma {:induction false} ToggledStep(sprite: seq<uint8>, xx: int, yy: int, row: int, col: int, c: int)
    requires 0 <= row < |sprite| && 0 <= col < 8
    ensures Toggled(sprite, xx, yy, row, col + 1, c) <==>
      Toggled(sprite, xx, yy, row, col, c) || (c == CellAddr(xx, yy, row, col) && SpriteBit(sprite[row], col) == 1)
    ensures c == CellAddr(xx, yy, row, col) ==> !Toggled(sprite, xx, yy, row, col, c)
  {
    var d := c - CellAddr(xx, yy, 0, 0);
    OffsetOfPixel(row, col);
    assert CellAddr(xx, yy, row, col) - CellAddr(xx, yy, 0, 0) == row * DISPLAY_WIDTH + col;
    if 0 <= d && d / DISPLAY_WIDTH == row && d % DISPLAY_WIDTH == col {
      assert d == row * DISPLAY_WIDTH + col;
    }
  }

  /** Going from pixel (row, col) to the next, for every cell of the display. */
  lemma {:induction false} ToggledStepAll(sprite: seq<uint8>, xx: int, yy: int, row: int, col: int, disp: seq<uint32>)
    requires 0 <= row < |sprite| && 0 <= col < 8
    ensures var a := CellAddr(xx, yy, row, col);
      forall c :: 0 <= c < |disp| ==>
        && (Toggled(sprite, xx, yy, row, col + 1, c) <==>
              Toggled(sprite, xx, yy, row, col, c) || (c == a && SpriteBit(sprite[row], col) == 1))
        && (c == a ==> !Toggled(sprite, xx, yy, row, col, c))
  {
    forall c | 0 <= c < |disp| {
      ToggledStep(sprite, xx, yy, row, col, c);
    }
  }

  /** One pixel of draw() on the display: if its bit is set, its cell, not
      toggled before, is XORed with 0xFFFFFFFF; otherwise nothing changes. */
  lemma {:induction false} BlitStepDisplay(sprite: seq<uint8>, xx: int, yy: int, row: int, col: int, disp: seq<uint32>)
    requires 0 <= row < |sprite| && 0 <= col < 8
    requires SpriteBit(sprite[row], col) == 1 ==> 0 <= CellAddr(xx, yy, row, col) < |disp|
    ensures var a, before := CellAddr(xx, yy, row, col), BlitUpTo(sprite, xx, yy, row, col, disp);
      && (SpriteBit(sprite[row], col) == 1 ==>
            before[a] == disp[a] && BlitUpTo(sprite, xx, yy, row, col + 1, disp) == before[a := Invert(before[a])])
      && (SpriteBit(sprite[row], col) == 0 ==> BlitUpTo(sprite, xx, yy, row, col + 1, disp) == before)
  {
    ToggledStepAll(sprite, xx, yy, row, col, disp);
  }

  /** One pixel of draw() on VF: a set bit adds whether its cell was on. */
  lemma {:induction false} BlitStepCollides(sprite: seq<uint8>, xx: int, yy: int, row: int, col: int, disp: seq<uint32>)
    requires 0 <= row < |sprite| && 0 <= col < 8
    requires SpriteBit(sprite[row], col) == 1 ==> 0 <= CellAddr(xx, yy, row, col) < |disp|
    ensures var a := CellAddr(xx, yy, row, col);
      && (SpriteBit(sprite[row], col) == 1 ==>
            (CollidesUpTo(sprite, xx, yy, row, col + 1, disp) <==>
               CollidesUpTo(sprite, xx, yy, row, col, disp) || disp[a] == 0xFFFF_FFFF))
      && (SpriteBit(sprite[row], col) == 0 ==>
            (CollidesUpTo(sprite, xx, yy, row, col + 1, disp) <==> CollidesUpTo(sprite, xx, yy, row, col, disp)))
  {
    var a := CellAddr(xx, yy, row, col);
    ToggledStepAll(sprite, xx, yy, row, col, disp);
    if CollidesUpTo(sprite, xx, yy, row, col + 1, disp) {
      var c :| 0 <= c < |disp| && Toggled(sprite, xx, yy, row, col + 1, c) && disp[c] == 0xFFFF_FFFF;
      if c != a || SpriteBit(sprite[row], col) == 0 {
        assert Toggled(sprite, xx, yy, row, col, c);
      }
    }
    if SpriteBit(sprite[row], col) == 1 && disp[a] == 0xFFFF_FFFF {
      assert Toggled(sprite, xx, yy, row, col + 1, a);
    }
  }

  /** The end of a row is the start of the next one. */
  lemma {:induction false} RowDone(sprite: seq<uint8>, xx: int, yy: int, row: int, disp: seq<uint32>)
    ensures BlitUpTo(sprite, xx, yy, row, 8, disp) == BlitUpTo(sprite, xx, yy, row + 1, 0, disp)
    ensures CollidesUpTo(sprite, xx, yy, row, 8, disp) == CollidesUpTo(sprite, xx, yy, row + 1, 0, disp)
  {
    forall c ensures Toggled(sprite, xx, yy, row, 8, c) == Toggled(sprite, xx, yy, row + 1, 0, c) {
    }
  }

  // ---------------------------------------------------------------------------
  // The whole sprite

  /** The direct reading of draw(): cell c is the cell of some pixel whose
      sprite bit is set. */
  predicate Hit(sprite: seq<uint8>, xx: int, yy: int, c: int) {
    exists row, col :: 0 <= row < |sprite| && 0 <= col < 8 && SpriteBit(sprite[row], col) == 1 && CellAddr(xx, yy, row, col) == c
  }

  /** Once every row is drawn, the toggled cells are exactly the hit cells. */
  lemma {:induction false} ToggledIffHit(sprite: seq<uint8>, xx: int, yy: int, c: int)
    ensures Toggled(sprite, xx, yy, |sprite|, 0, c) <==> Hit(sprite, xx, yy, c)
  {
    var d := c - CellAddr(xx, yy, 0, 0);
    if Toggled(sprite, xx, yy, |sprite|, 0, c) {
      var row, col := d / DISPLAY_WIDTH, d % DISPLAY_WIDTH;
      assert d == row * DISPLAY_WIDTH + col;
      assert CellAddr(xx, yy, row, col) == c;
    }
    if Hit(sprite, xx, yy, c) {
      var row, col :| 0 <= row < |sprite| && 0 <= col < 8 && SpriteBit(sprite[row], col) == 1 && CellAddr(xx, yy, row, col) == c;
      assert d == row * DISPLAY_WIDTH + col;
      OffsetOfPixel(row, col);
    }
  }

  /** A drawn display XORs exactly the hit cells and leaves every other cell alone. */
  lemma {:induction false} BlitTogglesHits(sprite: seq<uint8>, xx: int, yy: int, disp: seq<uint32>)
    ensures forall c :: 0 <= c < |disp| ==>
      BlitUpTo(sprite, xx, yy, |sprite|, 0, disp)[c] == if Hit(sprite, xx, yy, c) then Invert(disp[c]) else disp[c]
    ensures CollidesUpTo(sprite, xx, yy, |sprite|, 0, disp) <==>
      exists c :: 0 <= c < |disp| && Hit(sprite, xx, yy, c) && disp[c] == 0xFFFF_FFFF
  {
    forall c | 0 <= c < |disp| ensures Toggled(sprite, xx, yy, |sprite|, 0, c) <==> Hit(sprite, xx, yy, c) {
      ToggledIffHit(sprite, xx, yy, c);
    }
    if exists c :: 0 <= c < |disp| && Hit(sprite, xx, yy, c) && disp[c] == 0xFFFF_FFFF {
      var c :| 0 <= c < |disp| && Hit(sprite, xx, yy, c) && disp[c] == 0xFFFF_FFFF;
      assert Toggled(sprite, xx, yy, |sprite|, 0, c);
    }
  }

  /** Every cell is off (0) or on (0xFFFFFFFF). */
  predicate Binary(disp: seq<uint32>) {
    forall c :: 0 <= c < |disp| ==> disp[c] == 0 || disp[c] == 0xFFFF_FFFF
  }

  /** Drawing keeps a display binary. */
  lemma {:induction false} BlitKeepsBinary(sprite: seq<uint8>, xx: int, yy: int, row: int, col: int, disp: seq<uint32>)
    requires Binary(disp)
    ensures Binary(BlitUpTo(sprite, xx, yy, row, col, disp))
  {
    var out := BlitUpTo(sprite, xx, yy, row, col, disp);
    forall c | 0 <= c < |out| ensures out[c] == 0 || out[c] == 0xFFFF_FFFF {
      assert disp[c] == 0 || disp[c] == 0xFFFF_FFFF;
    }
  }

  /** Drawing the same sprite at the same place twice gives back the display. */
  lemma {:induction false} BlitTwiceRestores(sprite: seq<uint8>, xx: int, yy: int, row: int, col: int, disp: seq<uint32>)
    ensures BlitUpTo(sprite, xx, yy, row, col, BlitUpTo(sprite, xx, yy, row, col, disp)) == disp
  {
    var once := BlitUpTo(sprite, xx, yy, row, col, disp);
    var twice := BlitUpTo(sprite, xx, yy, row, col, once);
    forall c | 0 <= c < |disp| ensures twice[c] == disp[c] {
    }
  }

  // ---------------------------------------------------------------------------
  // draw() on the machine state

  /** draw(x, y, height): the origin is Vx mod 64, Vy mod 32 read after VF is
      cleared, so that an operand VF gives 0. */
  lemma {:induction false} DrawOrigin(regs: seq<uint8>, x: nat, y: nat)
    requires |regs| == NUM_REGISTERS && x < NUM_REGISTERS && y < NUM_REGISTERS
    ensures OriginX(regs, x) == if x == FLAG then 0 else regs[x] % DISPLAY_WIDTH
    ensures OriginY(regs, y) == if y == FLAG then 0 else regs[y] % DISPLAY_HEIGHT
  {
  }

  /** draw(x, y, height) toggles exactly the hit cells, sets VF to 1 when one
      of them was on and to 0 otherwise, and changes nothing else. */
  lemma {:induction false} DrawTogglesExactlyTheSprite(s: State, x: nat, y: nat, height: nat)
    requires WellFormed(s) && x < NUM_REGISTERS && y < NUM_REGISTERS && DrawDefined(s, x, y, height)
    ensures var s', sprite := DrawSprite(s, x, y, height), Sprite(s.memory, s.index, height);
      var xx, yy := OriginX(s.registers, x), OriginY(s.registers, y);
      && (forall c :: 0 <= c < DISPLAY_SIZE ==>
            s'.display[c] == if Hit(sprite, xx, yy, c) then Invert(s.display[c]) else s.display[c])
      && (s'.registers[FLAG] == 1 <==> exists c :: 0 <= c < DISPLAY_SIZE && Hit(sprite, xx, yy, c) && s.display[c] == 0xFFFF_FFFF)
      && (s'.registers[FLAG] == 0 || s'.registers[FLAG] == 1)
      && (forall j :: 0 <= j < NUM_REGISTERS && j != FLAG ==> s'.registers[j] == s.registers[j])
      && s' == s.(registers := s'.registers, display := s'.display)
  {
    var sprite := Sprite(s.memory, s.index, height);
    var xx, yy := OriginX(s.registers, x), OriginY(s.registers, y);
    BlitTogglesHits(sprite, xx, yy, s.display);
  }

  /** Every cell of a set pixel lies on the display, as draw() demands. */
  lemma {:induction false} DrawHitsLieOnDisplay(s: State, x: nat, y: nat, height: nat)
    requires WellFormed(s) && x < NUM_REGISTERS && y < NUM_REGISTERS && DrawDefined(s, x, y, height)
    ensures forall c :: Hit(Sprite(s.memory, s.index, height), OriginX(s.registers, x), OriginY(s.registers, y), c) ==>
      0 <= c < DISPLAY_SIZE
  {
    var sprite := Sprite(s.memory, s.index, height);
    var xx, yy := OriginX(s.registers, x), OriginY(s.registers, y);
    forall c | Hit(sprite, xx, yy, c) ensures 0 <= c < DISPLAY_SIZE {
      var row, col :| 0 <= row < |sprite| && 0 <= col < 8 && SpriteBit(sprite[row], col) == 1 && CellAddr(xx, yy, row, col) == c;
      assert sprite[row] == s.memory[s.index + row];
    }
  }

  /** Drawing keeps every cell at 0 or 0xFFFFFFFF. */
  lemma {:induction false} DrawKeepsBinary(s: State, x: nat, y: nat, height: nat)
    requires WellFormed(s) && x < NUM_REGISTERS && y < NUM_REGISTERS && DrawDefined(s, x, y, height)
    requires Binary(s.display)
    ensures Binary(DrawSprite(s, x, y, height).display)
  {
    BlitKeepsBinary(Sprite(s.memory, s.index, height), OriginX(s.registers, x), OriginY(s.registers, y), height, 0, s.display);
  }

  /** Drawing the same sprite twice restores the display. The second draw can
      be made: memory, index and the coordinates are as before, since the
      coordinates are read after VF is cleared. */
  lemma {:induction false} DrawTwiceRestores(s: State, x: nat, y: nat, height: nat)
    requires WellFormed(s) && x < NUM_REGISTERS && y < NUM_REGISTERS && DrawDefined(s, x, y, height)
    ensures DrawDefined(DrawSprite(s, x, y, height), x, y, height)
    ensures DrawSprite(DrawSprite(s, x, y, height), x, y, height).display == s.display
  {
    var s' := DrawSprite(s, x, y, height);
    assert s'.registers[FLAG := 0] == s.registers[FLAG := 0];
    BlitTwiceRestores(Sprite(s.memory, s.index, height), OriginX(s.registers, x), OriginY(s.registers, y), height, 0, s.display);
  }

  /** On a blank display no drawn cell was on, and afterwards the cells that
      are on are exactly the hit cells. */
  lemma {:induction false} DrawOnBlankSetsHits(s: State, x: nat, y: nat, height: nat)
    requires WellFormed(s) && x < NUM_REGISTERS && y < NUM_REGISTERS && DrawDefined(s, x, y, height)
    requires s.display == Blank()
    ensures var s', sprite := DrawSprite(s, x, y, height), Sprite(s.memory, s.index, height);
      var xx, yy := OriginX(s.registers, x), OriginY(s.registers, y);
      && s'.registers[FLAG] == 0
      && forall c :: 0 <= c < DISPLAY_SIZE ==> (s'.display[c] == 0xFFFF_FFFF <==> Hit(sprite, xx, yy, c))
  {
    DrawTogglesExactlyTheSprite(s, x, y, height);
  }

  /** A sprite hits some display cell exactly when it has a set pixel. */
  lemma {:induction false} SomeHitIffSomePixel(s: State, x: nat, y: nat, height: nat)
    requires WellFormed(s) && x < NUM_REGISTERS && y < NUM_REGISTERS && DrawDefined(s, x, y, height)
    ensures var sprite := Sprite(s.memory, s.index, height);
      (exists c :: 0 <= c < DISPLAY_SIZE && Hit(sprite, OriginX(s.registers, x), OriginY(s.registers, y), c)) <==>
      exists row, col :: 0 <= row < height && 0 <= col < 8 && SpriteBit(sprite[row], col) == 1
  {
    var sprite := Sprite(s.memory, s.index, height);
    var xx, yy := OriginX(s.registers, x), OriginY(s.registers, y);
    DrawHitsLieOnDisplay(s, x, y, height);
    if exists row, col :: 0 <= row < height && 0 <= col < 8 && SpriteBit(sprite[row], col) == 1 {
      var row, col :| 0 <= row < height && 0 <= col < 8 && SpriteBit(sprite[row], col) == 1;
      assert Hit(sprite, xx, yy, CellAddr(xx, yy, row, col));
    }
  }

  /** On a blank display the first draw never collides, and drawing the same
      sprite again collides exactly when the sprite has a set pixel. */
  lemma {:induction false} DrawOnBlankDisplay(s: State, x: nat, y: nat, height: nat)
    requires WellFormed(s) && x < NUM_REGISTERS && y < NUM_REGISTERS && DrawDefined(s, x, y, height)
    requires s.display == Blank()
    ensures DrawSprite(s, x, y, height).registers[FLAG] == 0
    ensures DrawDefined(DrawSprite(s, x, y, height), x, y, height)
    ensures DrawSprite(DrawSprite(s, x, y, height), x, y, height).registers[FLAG] == 1 <==>
      exists row, col :: 0 <= row < height && 0 <= col < 8 && SpriteBit(Sprite(s.memory, s.index, height)[row], col) == 1
  {
    var s' := DrawSprite(s, x, y, height);
    assert s'.registers[FLAG := 0] == s.registers[FLAG := 0];
    DrawOnBlankSetsHits(s, x, y, height);
    DrawTogglesExactlyTheSprite(s', x, y, height);
    SomeHitIffSomePixel(s, x, y, height);
  }
}
