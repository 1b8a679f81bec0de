/** A byte that is not acknowledged is not tried again: what the loss of any one of the six bytes
    of a transfer does to the controller. */
module LcdLoss {
  import opened Wrappers
  import opened Hd44780
  import opened LcdDriver
  import opened LcdLatching

  function Without(s: seq<bv8>, k: nat): seq<bv8>
    requires k < |s|
  {
    s[..k] + s[k + 1..]
  }

  lemma RunTwo(a: bv8, b: bv8, noise: nat -> Noise, t: nat, m: Machine)
    ensures Run([a, b], noise, t, m) == Step(b, noise(t + 1), Step(a, noise(t), m))
  {
    var m1 := Step(a, noise(t), m);
    assert [a, b][1..] == [b] && [b][1..] == [];
    assert Run([a, b], noise, t, m) == Run([b], noise, t + 1, m1);
    assert Run([b], noise, t + 1, m1) == Run([], noise, t + 2, Step(b, noise(t + 1), m1));
  }

  /** Of the three bytes of a four-bit write: without the first the nibble is latched all the
      same, without the second not at all, without the third not yet. */
  lemma LostOfFour(d: bv8, k: nat, noise: nat -> Noise, t: nat, m: Machine)
    requires d & 0x0E == 0 && m.lines & EN == 0 && k < 3
    ensures Run(Without(FourBits(d), k), noise, t, m) ==
            if k == 0 then Machine(d | BL, Clock(d >> 4, d & RS != 0, false, noise(t + 1), m.chip))
            else if k == 1 then Machine(d | BL, m.chip)
            else Machine(d | EN | BL, m.chip)
  {
    LinesOfNibble(d);
    var up, down := d | EN | BL, d | BL;
    assert FourBits(d) == [down, up, down];
    if k == 0 {
      assert Without(FourBits(d), k) == [up, down];
      RunTwo(up, down, noise, t, m);
    } else if k == 1 {
      assert Without(FourBits(d), k) == [down, down];
      RunTwo(down, down, noise, t, m);
    } else {
      assert Without(FourBits(d), k) == [down, up];
      RunTwo(down, up, noise, t, m);
    }
  }

  /** A four-bit write on a raised EN first latches what was left there, or already the new
      nibble, as the chip's sampling has it. */
  lemma LateFourBits(d: bv8, before: bv8, noise: nat -> Noise, t: nat, m: Machine)
    requires d & 0x0E == 0 && before & 0x0E == 0 && m.lines == before | EN | BL && before & RS == d & RS
    ensures var first := if noise(t).late then d else before;
            Run(FourBits(d), noise, t, m) ==
            Machine(d | BL, Clock(d >> 4, d & RS != 0, false, noise(t + 2),
                                  Clock(first >> 4, d & RS != 0, false, noise(t), m.chip)))
  {
    LinesOfNibble(d);
    LinesOfNibble(before);
    assert FourBits(d) == [d | BL, d | EN | BL, d | BL];
    RunThree(d | BL, d | EN | BL, d | BL, noise, t, m);
  }

  /** The byte of a transfer whose first falling edge came too late. */
  function Blurred(b: bv8, late: bool): bv8 {
    if late then ((b & 0x0F) << 4) | (b & 0x0F) else b
  }

  lemma EarlyNibbles(high: bv8, low: bv8, k: nat, noise: nat -> Noise, t: nat, m: Machine)
    requires high & 0x0E == 0 && low & 0x0E == 0 && high & RS == low & RS && m.lines & EN == 0 && k < 3
    ensures var first := if noise(t + 2).late then low else high;
            Run(Without(FourBits(high), k) + FourBits(low), noise, t, m) ==
            Machine(low | BL, Clock(low >> 4, low & RS != 0, false, noise(t + 4),
              if k == 0 then Clock(high >> 4, low & RS != 0, false, noise(t + 1), m.chip)
              else if k == 1 then m.chip
              else Clock(first >> 4, low & RS != 0, false, noise(t + 2), m.chip)))
  {
    RunConcat(Without(FourBits(high), k), FourBits(low), noise, t, m);
    if k == 2 {
      FallLost(high, low, noise, t, m);
    } else {
      LostOfFour(high, k, noise, t, m);
      LinesOfNibble(high);
      FourBitsClocks(low, noise, t + 2, Run(Without(FourBits(high), k), noise, t, m));
    }
  }

  lemma FallLost(high: bv8, low: bv8, noise: nat -> Noise, t: nat, m: Machine)
    requires high & 0x0E == 0 && low & 0x0E == 0 && high & RS == low & RS && m.lines & EN == 0
    ensures var first := if noise(t + 2).late then low else high;
            Run(FourBits(low), noise, t + 2, Run(Without(FourBits(high), 2), noise, t, m)) ==
            Machine(low | BL, Clock(low >> 4, low & RS != 0, false, noise(t + 4),
                                    Clock(first >> 4, low & RS != 0, false, noise(t + 2), m.chip)))
  {
    LostOfFour(high, 2, noise, t, m);
    LateFourBits(low, high, noise, t + 2, Run(Without(FourBits(high), 2), noise, t, m));
  }

  lemma LateNibbles(high: bv8, low: bv8, k: nat, noise: nat -> Noise, t: nat, m: Machine)
    requires high & 0x0E == 0 && low & 0x0E == 0 && high & RS == low & RS && m.lines & EN == 0 && k < 3
    ensures var c := Clock(high >> 4, low & RS != 0, false, noise(t + 2), m.chip);
            Run(FourBits(high) + Without(FourBits(low), k), noise, t, m) ==
            if k == 0 then Machine(low | BL, Clock(low >> 4, low & RS != 0, false, noise(t + 4), c))
            else if k == 1 then Machine(low | BL, c)
            else Machine(low | EN | BL, c)
  {
    RunConcat(FourBits(high), Without(FourBits(low), k), noise, t, m);
    LinesOfNibble(high);
    FourBitsClocks(high, noise, t, m);
    LostOfFour(low, k, noise, t + 3, Run(FourBits(high), noise, t, m));
  }

  lemma OneClock(x: bv8, rs: bool, noise: Noise, c: Chip)
    requires Aligned(c)
    ensures Clock(x, rs, false, noise, c) == c.(pending := Some(Half(x, rs, false)))
  {
  }

  lemma TwoClocks(x: bv8, y: bv8, rs: bool, noise: Noise, noise': Noise, c: Chip)
    requires Aligned(c)
    ensures Clock(y, rs, false, noise', Clock(x, rs, false, noise, c)) == Complete((x << 4) | (y & 0x0F), rs, false, c)
  {
    OneClock(x, rs, noise, c);
    SecondClock(x, y, rs, noise', c.(pending := Some(Half(x, rs, false))));
    assert c.(pending := Some(Half(x, rs, false))).(pending := None) == c;
  }

  lemma SecondClock(x: bv8, y: bv8, rs: bool, noise: Noise, c: Chip)
    requires !c.wide && c.pending == Some(Half(x, rs, false))
    ensures Clock(y, rs, false, noise, c) == Complete((x << 4) | (y & 0x0F), rs, false, c.(pending := None))
  {
    var h := c.pending.value;
    var rs', rw' := if noise.first then h.rs else rs, if noise.first then h.rw else false;
    assert rs' == rs && rw' == false && h.nibble == x;
    assert Clock(y, rs, false, noise, c) == Complete((h.nibble << 4) | (y & 0x0F), rs', rw', c.(pending := None));
  }

  lemma JoinedNibbles(b: bv8)
    ensures ((b >> 4) << 4) | ((b & 0x0F) & 0x0F) == Blurred(b, false)
    ensures ((b & 0x0F) << 4) | ((b & 0x0F) & 0x0F) == Blurred(b, true)
  {
  }

  lemma WithoutConcat(a: seq<bv8>, b: seq<bv8>, k: nat)
    requires k < |a| + |b|
    ensures k < |a| ==> Without(a + b, k) == Without(a, k) + b
    ensures k >= |a| ==> Without(a + b, k) == a + Without(b, k - |a|)
  {
  }

  /** What the controller latches of two nibbles when byte k of their six is lost. If the fall
      of the first comes too late it may latch the second instead. */
  function Latched(x: bv8, y: bv8, rs: bool, k: nat, noise: nat -> Noise, t: nat, c: Chip): Chip {
    if k == 1 then Clock(y, rs, false, noise(t + 4), c)
    else if k >= 4 then Clock(x, rs, false, noise(t + 2), c)
    else Clock(y, rs, false, noise(t + 4),
               Clock(if k == 2 && noise(t + 2).late then y else x, rs, false,
                     noise(if k == 0 then t + 1 else t + 2), c))
  }

  lemma HalvesLost(high: bv8, low: bv8, k: nat, noise: nat -> Noise, t: nat, m: Machine)
    requires high & 0x0E == 0 && low & 0x0E == 0 && high & RS == low & RS && m.lines & EN == 0 && k < 6
    ensures Run(Without(FourBits(high) + FourBits(low), k), noise, t, m).chip ==
            Latched(high >> 4, low >> 4, low & RS != 0, k, noise, t, m.chip)
  {
    WithoutConcat(FourBits(high), FourBits(low), k);
    if k < 3 {
      EarlyLatched(high, low, k, noise, t, m);
    } else {
      LateLatched(high, low, k, noise, t, m);
    }
  }

  lemma EarlyLatched(high: bv8, low: bv8, k: nat, noise: nat -> Noise, t: nat, m: Machine)
    requires high & 0x0E == 0 && low & 0x0E == 0 && high & RS == low & RS && m.lines & EN == 0 && k < 3
    ensures Run(Without(FourBits(high), k) + FourBits(low), noise, t, m).chip ==
            Latched(high >> 4, low >> 4, low & RS != 0, k, noise, t, m.chip)
  {
    EarlyNibbles(high, low, k, noise, t, m);
  }

  lemma LateLatched(high: bv8, low: bv8, k: nat, noise: nat -> Noise, t: nat, m: Machine)
    requires high & 0x0E == 0 && low & 0x0E == 0 && high & RS == low & RS && m.lines & EN == 0 && 3 <= k < 6
    ensures Run(FourBits(high) + Without(FourBits(low), k - 3), noise, t, m).chip ==
            Latched(high >> 4, low >> 4, low & RS != 0, k, noise, t, m.chip)
  {
    LateNibbles(high, low, k - 3, noise, t, m);
  }

  lemma TransferLost(b: bv8, mode: bv8, k: nat, noise: nat -> Noise, t: nat, m: Machine)
    requires m.lines & EN == 0 && (mode == 0 || mode == RS) && k < 6
    ensures Run(Without(WriteMode(b, mode), k), noise, t, m).chip ==
            Latched(b >> 4, b & 0x0F, mode != 0, k, noise, t, m.chip)
  {
    NibblesOfByte(b, mode);
    HalvesLost(mode | (b & 0xF0), mode | ((b << 4) & 0xF0), k, noise, t, m);
  }

  /** Two nibbles still make a byte. */
  lemma LatchedWhole(b: bv8, rs: bool, k: nat, noise: nat -> Noise, t: nat, c: Chip)
    requires Aligned(c) && (k == 0 || k == 2 || k == 3)
    ensures Latched(b >> 4, b & 0x0F, rs, k, noise, t, c) ==
            Complete(Blurred(b, k == 2 && noise(t + 2).late), rs, false, c)
  {
    var late := k == 2 && noise(t + 2).late;
    JoinedNibbles(b);
    TwoClocks(if late then b & 0x0F else b >> 4, b & 0x0F, rs, noise(if k == 0 then t + 1 else t + 2), noise(t + 4), c);
  }

  /** The controller after a transfer to an aligned interface of which byte k is lost. */
  lemma LostByte(b: bv8, mode: bv8, k: nat, noise: nat -> Noise, t: nat, m: Machine)
    requires m.lines & EN == 0 && (mode == 0 || mode == RS) && Aligned(m.chip) && k < 6
    ensures Run(Without(WriteMode(b, mode), k), noise, t, m).chip ==
            if k == 0 || k == 2 || k == 3
            then Complete(Blurred(b, k == 2 && noise(t + 2).late), mode != 0, false, m.chip)
            else m.chip.(pending := Some(Half(if k == 1 then b & 0x0F else b >> 4, mode != 0, false)))
  {
    TransferLost(b, mode, k, noise, t, m);
    if k == 0 || k == 2 || k == 3 {
      LatchedWhole(b, mode != 0, k, noise, t, m.chip);
    } else {
      OneClock(if k == 1 then b & 0x0F else b >> 4, mode != 0, noise(if k == 1 then t + 4 else t + 2), m.chip);
    }
  }

  /** After a character of which byte k is lost the interface is still aligned exactly when that
      is the first byte of a nibble or the fall of EN after the first nibble; the character is
      then written, in the last case garbled if the chip samples late. Otherwise the interface
      is half a byte out of step. */
  lemma LostByteIff(b: bv8, k: nat, noise: nat -> Noise, t: nat, m: Machine)
    requires m.lines & EN == 0 && Aligned(m.chip) && k < 6
    ensures var m' := Run(Without(WriteMode(b, RS), k), noise, t, m);
            && (Aligned(m'.chip) <==> k == 0 || k == 2 || k == 3)
            && (Aligned(m'.chip) ==>
                  m'.chip == WriteData(Blurred(b, k == 2 && noise(t + 2).late), m.chip))
  {
    LostByte(b, RS, k, noise, t, m);
  }

  /** The bus with one byte not acknowledged. */
  lemma {:induction false} OneNotAcked(acks: nat -> bool, s: seq<bv8>, k: nat)
    requires k < |s| && forall i :: 0 <= i < |s| ==> (acks(i) <==> i != k)
    ensures Acked(acks, s) == Without(s, k)
    decreases |s|
  {
    var n := |s| - 1;
    if k == n {
      AckedIff(acks, s[..n]);
      assert Without(s, k) == s[..n];
    } else {
      OneNotAcked(acks, s[..n], k);
      assert Without(s, k) == Without(s[..n], k) + [s[n]];
    }
  }
}
