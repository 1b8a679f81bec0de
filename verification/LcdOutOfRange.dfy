/** Positions past the end of a line: what their wrapped command bytes do. */
module LcdOutOfRange {
  import opened Hd44780
  import opened LcdDriver
  import opened LcdLatching
  import opened LcdSetup
  import opened LcdScreen

  /** Command bytes that leave interface, display and entry mode as setup left them. */
  predicate KeepsConfiguration(cmd: bv8) {
    cmd <= 3 || cmd == 0x06 || cmd == 0x0C || 0x10 <= cmd < 0x18 || 0x28 <= cmd < 0x2C || 0x40 <= cmd
  }

  lemma ExecuteKeepsSync(cmd: bv8, c: Chip)
    requires Synced(c)
    ensures var c' := Execute(Decode(cmd), c);
            (c'.wide || Aligned(c')) && (Synced(c') <==> KeepsConfiguration(cmd))
  {
    if 0x40 <= cmd {
      assert cmd & 0x80 != 0 || cmd & 0x40 != 0;
    } else if 0x20 <= cmd {
      assert cmd & 0x80 == 0 && cmd & 0x40 == 0 && cmd & 0x20 != 0;
      assert (0x28 <= cmd < 0x2C) <==> (cmd & 0x10 == 0 && cmd & 0x08 != 0 && cmd & 0x04 == 0);
    } else if 0x10 <= cmd {
      assert cmd & 0x80 == 0 && cmd & 0x40 == 0 && cmd & 0x20 == 0 && cmd & 0x10 != 0;
      assert (cmd < 0x18) <==> cmd & 0x08 == 0;
    } else if 0x08 <= cmd {
      assert cmd & 0xF0 == 0 && cmd & 0x80 == 0 && cmd & 0x40 == 0 && cmd & 0x20 == 0 && cmd & 0x10 == 0;
      assert cmd & 0x08 != 0;
      assert cmd == 0x0C <==> (cmd & 0x04 != 0 && cmd & 0x02 == 0 && cmd & 0x01 == 0);
    } else {
      assert cmd & 0x80 == 0 && cmd & 0x40 == 0 && cmd & 0x20 == 0 && cmd & 0x10 == 0 && cmd & 0x08 == 0;
      assert (0x04 <= cmd) <==> cmd & 0x04 != 0;
      assert cmd == 0x06 <==> (cmd & 0x04 != 0 && cmd & 0x02 != 0 && cmd & 0x01 == 0);
    }
  }

  lemma DataKeepsSync(b: bv8, c: Chip)
    ensures var c' := WriteData(b, c);
            && c'.wide == c.wide && c'.pending == c.pending
            && (Synced(c') <==> Synced(c))
  {
  }

  /** Characters written while the interface is 8 bits wide leave it so; written while it
      is aligned they change no setting. */
  lemma {:induction false} TextKeepsSync(text: seq<bv8>, noise: nat -> Noise, t: nat, m: Machine)
    requires m.lines & EN == 0 && (m.chip.wide || Aligned(m.chip))
    ensures Synced(Run(Text(text), noise, t, m).chip) <==> Synced(m.chip)
    decreases |text|
  {
    if text != [] {
      var m1 := Run(WriteMode(text[0], RS), noise, t, m);
      if m.chip.wide {
        WriteModeClocks(text[0], RS, noise, t, m);
        WideData(text[0] >> 4, noise(t + 2), m.chip);
        WideData(text[0] & 0x0F, noise(t + 5), Clock(text[0] >> 4, true, false, noise(t + 2), m.chip));
      } else {
        WriteModeCompletes(text[0], RS, noise, t, m);
        DataKeepsSync(text[0], m.chip);
      }
      RunConcat(WriteMode(text[0], RS), Text(text[1..]), noise, t, m);
      TextKeepsSync(text[1..], noise, t + 6, m1);
    }
  }

  lemma WideData(n: bv8, noise: Noise, c: Chip)
    requires c.wide
    ensures Clock(n, true, false, noise, c).wide
  {
    DataKeepsSync((n << 4) | (noise.low & 0x0F), c);
  }

  /** Exactly which prints leave the display as setup configured it, for every text. A
      position that wraps past the address code becomes some other instruction. */
  lemma PrintKeepsSyncIff(text: seq<bv8>, line: bv8, pos: bv8, noise: nat -> Noise, t: nat, m: Machine)
    requires Ready(m)
    ensures Synced(Run(Trace(Print(text, line, pos)), noise, t, m).chip) <==> KeepsConfiguration(PrintCommand(line, pos))
  {
    var cmd := PrintCommand(line, pos);
    var head := WriteMode(cmd, 0);
    var m1 := Run(head, noise, t, m);
    WriteModeCompletes(cmd, 0, noise, t, m);
    ExecuteKeepsSync(cmd, m.chip);
    RunConcat(head, Text(text), noise, t, m);
    TextKeepsSync(text, noise, t + |head|, m1);
    PrintTrace(text, line, pos);
  }

  /** A concrete case: position 129 on line 1 is not an address, it clears the display. */
  lemma WrappedPrintClears(noise: nat -> Noise, t: nat, m: Machine)
    requires Ready(m)
    ensures !Addressable(1, 0x81)
    ensures var m' := Run(Trace(Print([], 1, 0x81)), noise, t, m);
            Ready(m') && View(m') == Screen(BlankRam(), 0, true)
  {
    PrintTrace([], 1, 0x81);
    assert PrintCommand(1, 0x81) == 0x01;
    var head := WriteMode(0x01, 0);
    WriteModeCompletes(0x01, 0, noise, t, m);
    assert Decode(0x01) == ClearDisplay;
    assert head + Text([]) == head;
  }

  /** Another: position 176 switches the chip to its 8-bit interface. */
  lemma WrappedPrintUnsyncs(text: seq<bv8>, noise: nat -> Noise, t: nat, m: Machine)
    requires Ready(m)
    ensures !Synced(Run(Trace(Print(text, 1, 0xB0)), noise, t, m).chip)
  {
    PrintKeepsSyncIff(text, 1, 0xB0, noise, t, m);
    assert PrintCommand(1, 0xB0) == 0x30;
  }

  // ------------------------------------------------ staying on the cells

  /** Writing n characters from this address on ends at an existing cell: it is one, or the
      counter runs up to the next one (0x40, or 0x00 past the top). */
  predicate Reaches(a: Address, n: nat) {
    HasCell(true, a) || (a < 0x40 && a + n >= 0x40) || a + n >= 0x80
  }

  /** Command bytes after which n characters leave the display ready for the next call: the
      configuration is kept, CGRAM is not selected and the address ends at a cell. */
  predicate LeavesReady(cmd: bv8, n: nat) {
    && KeepsConfiguration(cmd)
    && if cmd >= 0x80 then Reaches((cmd & 0x7F) as int, n) else cmd < 0x40
  }

  lemma NoCellStep(a: Address, n: nat)
    requires !HasCell(true, a) && n > 0
    ensures Reaches(NextAddress(true, a), n - 1) <==> Reaches(a, n)
  {
  }

  /** Characters written to DDRAM from any address. */
  lemma {:induction false} TextEndsReady(text: seq<bv8>, noise: nat -> Noise, t: nat, m: Machine)
    requires m.lines & EN == 0 && Synced(m.chip) && m.chip.area == Ddram
    ensures Ready(Run(Text(text), noise, t, m)) <==> Reaches(m.chip.ac, |text|)
    decreases |text|
  {
    if HasCell(true, m.chip.ac) {
      TextRuns(text, noise, t, m);
    } else if text != [] {
      var m1 := Run(WriteMode(text[0], RS), noise, t, m);
      WriteModeCompletes(text[0], RS, noise, t, m);
      assert m1.chip == m.chip.(ac := NextAddress(true, m.chip.ac));
      NoCellStep(m.chip.ac, |text|);
      RunConcat(WriteMode(text[0], RS), Text(text[1..]), noise, t, m);
      TextEndsReady(text[1..], noise, t + 6, m1);
    }
  }

  /** Characters written to CGRAM leave CGRAM selected. */
  lemma {:induction false} TextStaysInCgram(text: seq<bv8>, noise: nat -> Noise, t: nat, m: Machine)
    requires m.lines & EN == 0 && Synced(m.chip) && m.chip.area == Cgram
    ensures Run(Text(text), noise, t, m).chip.area == Cgram
    decreases |text|
  {
    if text != [] {
      WriteModeCompletes(text[0], RS, noise, t, m);
      DataKeepsSync(text[0], m.chip);
      RunConcat(WriteMode(text[0], RS), Text(text[1..]), noise, t, m);
      TextStaysInCgram(text[1..], noise, t + 6, Run(WriteMode(text[0], RS), noise, t, m));
    }
  }

  lemma MovesStayOnCells(a: Address)
    requires HasCell(true, a)
    ensures HasCell(true, NextAddress(true, a)) && HasCell(true, PreviousAddress(true, a))
  {
  }

  /** Where a command that keeps the configuration leaves the address counter. */
  lemma CommandLands(cmd: bv8, c: Chip)
    requires Synced(c) && c.area == Ddram && HasCell(true, c.ac) && KeepsConfiguration(cmd)
    ensures var c' := Execute(Decode(cmd), c);
            if cmd >= 0x80 then c'.area == Ddram && c'.ac == (cmd & 0x7F) as int
            else if cmd >= 0x40 then c'.area == Cgram
            else c'.area == Ddram && HasCell(true, c'.ac)
  {
    MovesStayOnCells(c.ac);
    HighInstructions(cmd);
  }

  lemma HighInstructions(cmd: bv8)
    ensures cmd >= 0x80 <==> cmd & 0x80 != 0
    ensures cmd < 0x80 ==> (cmd >= 0x40 <==> cmd & 0x40 != 0)
  {
  }

  /** Exactly which prints leave the display ready, for every text: those that also stay out
      of CGRAM and end at an existing cell. */
  lemma PrintKeepsReadyIff(text: seq<bv8>, line: bv8, pos: bv8, noise: nat -> Noise, t: nat, m: Machine)
    requires Ready(m)
    ensures Ready(Run(Trace(Print(text, line, pos)), noise, t, m)) <==> LeavesReady(PrintCommand(line, pos), |text|)
  {
    var cmd := PrintCommand(line, pos);
    PrintKeepsSyncIff(text, line, pos, noise, t, m);
    PrintTrace(text, line, pos);
    if KeepsConfiguration(cmd) {
      ConfiguredPrintReady(text, cmd, noise, t, m);
    }
  }

  lemma ConfiguredPrintReady(text: seq<bv8>, cmd: bv8, noise: nat -> Noise, t: nat, m: Machine)
    requires Ready(m) && KeepsConfiguration(cmd)
    ensures Ready(Run(WriteMode(cmd, 0) + Text(text), noise, t, m)) <==> LeavesReady(cmd, |text|)
  {
    var head := WriteMode(cmd, 0);
    var m1 := Run(head, noise, t, m);
    WriteModeCompletes(cmd, 0, noise, t, m);
    ExecuteKeepsSync(cmd, m.chip);
    CommandLands(cmd, m.chip);
    RunConcat(head, Text(text), noise, t, m);
    if m1.chip.area == Ddram {
      TextEndsReady(text, noise, t + |head|, m1);
    } else {
      TextStaysInCgram(text, noise, t + |head|, m1);
    }
  }

  /** A concrete case: position 192 on line 1 keeps the configuration but selects CGRAM. */
  lemma WrappedPrintSelectsCgram(text: seq<bv8>, noise: nat -> Noise, t: nat, m: Machine)
    requires Ready(m)
    ensures var m' := Run(Trace(Print(text, 1, 0xC0)), noise, t, m);
            Synced(m'.chip) && m'.chip.area == Cgram && !Ready(m')
  {
    PrintTrace(text, 1, 0xC0);
    assert PrintCommand(1, 0xC0) == 0x40;
    PrintKeepsSyncIff(text, 1, 0xC0, noise, t, m);
    var head := WriteMode(0x40, 0);
    WriteModeCompletes(0x40, 0, noise, t, m);
    ExecuteKeepsSync(0x40, m.chip);
    CommandLands(0x40, m.chip);
    RunConcat(head, Text(text), noise, t, m);
    TextStaysInCgram(text, noise, t + |head|, Run(head, noise, t, m));
  }
}
