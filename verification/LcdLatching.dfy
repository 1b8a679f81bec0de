/** From bytes on the I2C bus to whole bytes inside the controller. */
module LcdLatching {
  import opened Wrappers
  import opened Hd44780
  import opened LcdDriver

  // ---------------------------------------------------------------- nibbles

  lemma LinesOfNibble(d: bv8)
    requires d & 0x0E == 0
    ensures (d | BL) & EN == 0 && (d | EN | BL) & EN != 0 && (d & !EN) | BL == d | BL
    ensures (d | BL) >> 4 == d >> 4 && (d | EN | BL) >> 4 == d >> 4
    ensures (d | BL) & RS == d & RS && (d | EN | BL) & RS == d & RS
    ensures (d | BL) & RW == 0 && (d | EN | BL) & RW == 0
  {
  }

  /** One four-bit write gives exactly one latch, and it does not matter when the chip
      samples its lines. */
  lemma FourBitsClocks(d: bv8, noise: nat -> Noise, t: nat, m: Machine)
    requires d & 0x0E == 0 && m.lines & EN == 0
    ensures Run(FourBits(d), noise, t, m) ==
            Machine(d | BL, Clock(d >> 4, d & RS != 0, false, noise(t + 2), m.chip))
  {
    LinesOfNibble(d);
    var up := d | EN | BL;
    var down := d | BL;
    var m1 := Step(down, noise(t), m);
    assert m1 == Machine(down, m.chip);
    var m2 := Step(up, noise(t + 1), m1);
    assert m2 == Machine(up, m.chip);
    var m3 := Step(down, noise(t + 2), m2);
    RunThree(down, up, down, noise, t, m);
    assert FourBits(d) == [down, up, down];
  }

  lemma RunThree(a: bv8, b: bv8, c: bv8, noise: nat -> Noise, t: nat, m: Machine)
    ensures Run([a, b, c], noise, t, m) ==
            Step(c, noise(t + 2), Step(b, noise(t + 1), Step(a, noise(t), m)))
  {
    var m1 := Step(a, noise(t), m);
    var m2 := Step(b, noise(t + 1), m1);
    var m3 := Step(c, noise(t + 2), m2);
    assert [a, b, c][1..] == [b, c];
    assert Run([a, b, c], noise, t, m) == Run([b, c], noise, t + 1, m1);
    assert [b, c][1..] == [c];
    assert Run([b, c], noise, t + 1, m1) == Run([c], noise, t + 2, m2);
    assert Run([c], noise, t + 2, m2) == Run([], noise, t + 3, m3);
  }

  // ------------------------------------------------------------------ bytes

  function ClockByte(b: bv8, rs: bool, noise: nat -> Noise, t: nat, c: Chip): Chip {
    Clock(b & 0x0F, rs, false, noise(t + 5), Clock(b >> 4, rs, false, noise(t + 2), c))
  }

  lemma NibblesOfByte(c: bv8, mode: bv8)
    requires mode == 0 || mode == RS
    ensures (mode | (c & 0xF0)) & 0x0E == 0 && (mode | ((c << 4) & 0xF0)) & 0x0E == 0
    ensures (mode | (c & 0xF0)) & RS == mode && (mode | ((c << 4) & 0xF0)) & RS == mode
    ensures (mode | (c & 0xF0)) >> 4 == c >> 4 && (mode | ((c << 4) & 0xF0)) >> 4 == c & 0x0F
    ensures ((mode | ((c << 4) & 0xF0)) | BL) & EN == 0
    ensures ((mode | ((c << 4) & 0xF0)) | BL) & BL != 0
    ensures ((mode | (c & 0xF0)) | BL) & EN == 0
  {
  }

  lemma TwoNibblesClock(high: bv8, low: bv8, noise: nat -> Noise, t: nat, m: Machine)
    requires high & 0x0E == 0 && low & 0x0E == 0 && m.lines & EN == 0 && (high | BL) & EN == 0
    ensures Run(FourBits(high) + FourBits(low), noise, t, m) ==
            Machine(low | BL,
                    Clock(low >> 4, low & RS != 0, false, noise(t + 5),
                          Clock(high >> 4, high & RS != 0, false, noise(t + 2), m.chip)))
  {
    FourBitsClocks(high, noise, t, m);
    FourBitsClocks(low, noise, t + 3, Run(FourBits(high), noise, t, m));
    RunConcat(FourBits(high), FourBits(low), noise, t, m);
  }

  lemma WriteModeClocks(c: bv8, mode: bv8, noise: nat -> Noise, t: nat, m: Machine)
    requires m.lines & EN == 0 && (mode == 0 || mode == RS)
    ensures var m' := Run(WriteMode(c, mode), noise, t, m);
            && m'.lines & EN == 0 && m'.lines & BL != 0
            && m'.chip == ClockByte(c, mode != 0, noise, t, m.chip)
  {
    NibblesOfByte(c, mode);
    TwoNibblesClock(mode | (c & 0xF0), mode | ((c << 4) & 0xF0), noise, t, m);
  }

  predicate Aligned(c: Chip) {
    !c.wide && c.pending == None
  }

  lemma JoinNibbles(b: bv8)
    ensures ((b >> 4) << 4) | ((b & 0x0F) & 0x0F) == b
  {
  }

  /** On an aligned 4-bit interface two latches transfer one byte, whatever the noise. */
  lemma AlignedByte(b: bv8, rs: bool, noise: nat -> Noise, t: nat, c: Chip)
    requires Aligned(c)
    ensures ClockByte(b, rs, noise, t, c) == Complete(b, rs, false, c)
  {
    JoinNibbles(b);
    assert c.(pending := Some(Half(b >> 4, rs, false))).(pending := None) == c;
  }

  lemma WriteModeCompletes(b: bv8, mode: bv8, noise: nat -> Noise, t: nat, m: Machine)
    requires m.lines & EN == 0 && (mode == 0 || mode == RS) && Aligned(m.chip)
    ensures var m' := Run(WriteMode(b, mode), noise, t, m);
            && m'.lines & EN == 0 && m'.lines & BL != 0
            && m'.chip == Complete(b, mode != 0, false, m.chip)
  {
    WriteModeClocks(b, mode, noise, t, m);
    AlignedByte(b, mode != 0, noise, t, m.chip);
  }
}
