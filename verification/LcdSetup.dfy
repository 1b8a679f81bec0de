/** Setup: every controller state is driven to one known state. */
module LcdSetup {
  import opened Wrappers
  import opened Hd44780
  import opened LcdDriver
  import opened LcdLatching

  function ClockBytes(bs: seq<bv8>, noise: nat -> Noise, t: nat, c: Chip): Chip {
    if bs == [] then c
    else ClockBytes(bs[1..], noise, t + 6, ClockByte(bs[0], false, noise, t, c))
  }

  lemma {:induction false} CommandsClock(bs: seq<bv8>, noise: nat -> Noise, t: nat, m: Machine)
    requires m.lines & EN == 0
    ensures var m' := Run(Commands(bs), noise, t, m);
            && m'.lines & EN == 0
            && (bs != [] ==> m'.lines & BL != 0)
            && m'.chip == ClockBytes(bs, noise, t, m.chip)
  {
    if bs != [] {
      WriteModeClocks(bs[0], 0, noise, t, m);
      RunConcat(WriteMode(bs[0], 0), Commands(bs[1..]), noise, t, m);
      var m1 := Run(WriteMode(bs[0], 0), noise, t, m);
      CommandsClock(bs[1..], noise, t + 6, m1);
    }
  }

  lemma HighBits(n: bv8, low: bv8)
    requires n == 0 || n == 2 || n == 3
    ensures var b := (n << 4) | (low & 0x0F);
            && b & 0x80 == 0 && b & 0x40 == 0
            && (b & 0x20 != 0) == (n != 0)
            && (b & 0x10 != 0) == (n == 3)
  {
  }

  lemma ExecuteKeepsInterface(i: Instruction, c: Chip)
    ensures var c' := Execute(i, c);
            if i.FunctionSet? then c'.wide == i.wide && c'.pending == None
            else c'.wide == c.wide && c'.pending == c.pending
  {
    match i
    case Nop =>
    case ClearDisplay =>
    case ReturnHome =>
    case EntryMode(_, _) =>
    case DisplayControl(_, _, _) =>
    case MoveCursor(_) =>
    case ShiftDisplay(_) =>
    case FunctionSet(_, _, _) =>
    case SetCgram(_) =>
    case SetDdram(_) =>
  }

  /** In 8-bit mode the driven half of a byte decides whether the interface width changes,
      whatever is on the undriven half. */
  lemma WideLatch(n: bv8, noise: Noise, c: Chip)
    requires c.wide && (n == 0 || n == 2 || n == 3)
    ensures var c' := Clock(n, false, false, noise, c);
            if n == 2 then Aligned(c') else c'.wide
  {
    HighBits(n, noise.low);
    var b := (n << 4) | (noise.low & 0x0F);
    var i := Decode(b);
    assert i.FunctionSet? == (n != 0);
    assert i.FunctionSet? ==> i.wide == (n == 3);
    ExecuteKeepsInterface(i, c);
  }

  /** A byte completed by any means leaves the interface aligned or 8 bits wide. */
  lemma CompleteSettles(b: bv8, rs: bool, rw: bool, c: Chip)
    requires Aligned(c)
    ensures var c' := Complete(b, rs, rw, c); c'.wide || Aligned(c')
  {
    var i := Decode(b);
    ExecuteKeepsInterface(i, c);
  }

  /** A first half with the value 3 is waiting for its second. */
  predicate HalfThree(c: Chip) {
    !c.wide && c.pending == Some(Half(3, false, false))
  }

  lemma SecondHalfSettles(n: bv8, noise: Noise, c: Chip)
    requires !c.wide && c.pending.Some?
    ensures var c' := Clock(n, false, false, noise, c); c'.wide || Aligned(c')
  {
    var h := c.pending.value;
    CompleteSettles((h.nibble << 4) | (n & 0x0F), noise.first && h.rs, noise.first && h.rw, c.(pending := None));
  }

  lemma AnyFirstByte(noise: nat -> Noise, t: nat, c: Chip)
    ensures var c' := ClockByte(0x03, false, noise, t, c);
            c'.wide || Aligned(c') || HalfThree(c')
  {
    var c1 := Clock(0, false, false, noise(t + 2), c);
    var c2 := Clock(3, false, false, noise(t + 5), c1);
    if c.wide {
      WideLatch(0, noise(t + 2), c);
      WideLatch(3, noise(t + 5), c1);
    } else if c.pending == None {
      AlignedByte(0x03, false, noise, t, c);
      CompleteSettles(0x03, false, false, c);
    } else {
      SecondHalfSettles(0, noise(t + 2), c);
      if c1.wide {
        WideLatch(3, noise(t + 5), c1);
      }
    }
  }

  lemma LaterByte(noise: nat -> Noise, t: nat, c: Chip)
    requires c.wide || Aligned(c) || HalfThree(c)
    ensures var c' := ClockByte(0x03, false, noise, t, c); c'.wide || Aligned(c')
  {
    var c1 := Clock(0, false, false, noise(t + 2), c);
    if c.wide {
      WideLatch(0, noise(t + 2), c);
      WideLatch(3, noise(t + 5), c1);
    } else if c.pending == None {
      AlignedByte(0x03, false, noise, t, c);
    } else {
      assert (3 as bv8 << 4) | (0 & 0x0F) == 0x30;
      assert c1.wide;
      WideLatch(3, noise(t + 5), c1);
    }
  }

  lemma FourthByte(noise: nat -> Noise, t: nat, c: Chip)
    requires c.wide || Aligned(c)
    ensures Aligned(ClockByte(0x02, false, noise, t, c))
  {
    if c.wide {
      WideLatch(0, noise(t + 2), c);
      WideLatch(2, noise(t + 5), Clock(0, false, false, noise(t + 2), c));
    } else {
      AlignedByte(0x02, false, noise, t, c);
    }
  }

  /** What setup leaves behind, apart from CGRAM. */
  predicate Fresh(c: Chip) {
    && Synced(c)
    && c.area == Ddram && c.ac == 0
    && c.ddram == BlankRam()
  }

  /** 4-bit aligned, two lines of 5x8 characters, display on, cursor and blinking off,
      moving right, display not shifted. */
  predicate Synced(c: Chip) {
    && Aligned(c)
    && c.twoLine && !c.bigFont
    && c.displayOn && !c.cursorOn && !c.blinkOn
    && c.increment && !c.shiftOnWrite && c.shift == 0
  }

  /** What is known of the controller before byte k of the setup sequence, and after it. */
  predicate Known(k: nat, c: Chip) {
    if k == 0 then true
    else if k == 1 then c.wide || Aligned(c) || HalfThree(c)
    else if k <= 3 then c.wide || Aligned(c)
    else
      && Aligned(c)
      && (k >= 5 ==> c.twoLine && !c.bigFont)
      && (k >= 6 ==> c.displayOn && !c.cursorOn && !c.blinkOn)
      && (k >= 7 ==> c.shift == 0 && c.area == Ddram && c.ac == 0 && c.ddram == BlankRam())
      && (k >= 8 ==> c.increment && !c.shiftOnWrite)
  }

  lemma ConfigurationByte(k: nat, noise: nat -> Noise, t: nat, c: Chip)
    requires 4 <= k < 8 && Known(k, c)
    ensures Known(k + 1, ClockByte(SETUP[k], false, noise, t, c))
  {
    AlignedByte(SETUP[k], false, noise, t, c);
    assert Decode(0x28) == FunctionSet(false, true, false);
    assert Decode(0x0C) == DisplayControl(true, false, false);
    assert Decode(0x01) == ClearDisplay;
    assert Decode(0x06) == EntryMode(true, false);
  }

  lemma SetupByte(k: nat, noise: nat -> Noise, t: nat, c: Chip)
    requires k < 8 && Known(k, c)
    ensures Known(k + 1, ClockByte(SETUP[k], false, noise, t, c))
  {
    if k == 0 {
      AnyFirstByte(noise, t, c);
    } else if k <= 2 {
      LaterByte(noise, t, c);
    } else if k == 3 {
      FourthByte(noise, t, c);
    } else {
      ConfigurationByte(k, noise, t, c);
    }
  }

  lemma {:induction false} SetupFrom(k: nat, noise: nat -> Noise, t: nat, c: Chip)
    requires k <= 8 && Known(k, c)
    ensures Known(8, ClockBytes(SETUP[k..], noise, t, c))
    decreases 8 - k
  {
    if k < 8 {
      SetupByte(k, noise, t, c);
      assert SETUP[k..][0] == SETUP[k] && SETUP[k..][1..] == SETUP[k + 1..];
      SetupFrom(k + 1, noise, t + 6, ClockByte(SETUP[k], false, noise, t, c));
    }
  }

  /** From every state of the controller the setup nibbles end in one fresh state. */
  lemma SetupSynchronises(noise: nat -> Noise, t: nat, c: Chip)
    ensures Fresh(ClockBytes(SETUP, noise, t, c))
  {
    SetupFrom(0, noise, t, c);
    assert SETUP[0..] == SETUP;
  }

  /** If EN is high when the first byte arrives, that byte clocks one stray half into the
      chip and the rest goes on as from a low EN. */
  lemma StrayEdge(trace: seq<bv8>, noise: nat -> Noise, t: nat, m: Machine)
    requires trace != [] && trace[0] & EN == 0
    ensures var m' := Machine(0, Step(trace[0], noise(t), m).chip);
            Run(trace, noise, t, m) == Run(trace, noise, t, m')
  {
    var m' := Machine(0, Step(trace[0], noise(t), m).chip);
    assert m'.lines & EN == 0;
    assert Step(trace[0], noise(t), m') == Step(trace[0], noise(t), m);
  }

  lemma SetupStartsLow()
    ensures Commands(SETUP) != [] && Commands(SETUP)[0] == BL
  {
    assert (0 as bv8 | (0x03 & 0xF0)) == 0;
    assert WriteMode(0x03, 0)[0] == BL;
    assert Commands(SETUP) == WriteMode(0x03, 0) + Commands(SETUP[1..]);
  }

  /** Setup brings any controller, whatever its state, its lines and its noise, to one
      state of interface, display and DDRAM, with the backlight on. */
  lemma SetupFromAnyState(noise: nat -> Noise, t: nat, m: Machine)
    ensures var m' := Run(Commands(SETUP), noise, t, m);
            && Fresh(m'.chip) && m'.lines & EN == 0 && m'.lines & BL != 0
            && forall i :: 0 <= i < 80 ==> m'.chip.ddram[i] == 0x20
  {
    SetupStartsLow();
    StrayEdge(Commands(SETUP), noise, t, m);
    var m0 := Machine(0, Step(BL, noise(t), m).chip);
    assert m0.lines & EN == 0;
    CommandsClock(SETUP, noise, t, m0);
    SetupSynchronises(noise, t, m0.chip);
  }
}
