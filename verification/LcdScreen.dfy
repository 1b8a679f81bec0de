/** The abstract screen and the proof that driver calls act on it as intended. */
module LcdScreen {
  import opened Hd44780
  import opened LcdDriver
  import opened LcdLatching
  import opened LcdSetup

  /** What a user of the display sees: 80 cells on a ring, the place the next character
      goes to, and the backlight. */
  datatype Screen = Screen(cells: Ram, cursor: nat, lit: bool)

  /** Characters written round the ring of cells from a starting place. */
  function WriteRing(cells: Ram, start: nat, text: seq<bv8>): Ram
    requires start < 80
    decreases |text|
  {
    if text == [] then cells
    else WriteRing(cells[start := text[0]], Up(start, 80), text[1..])
  }

  function Advance(start: nat, n: nat): (r: nat)
    requires start < 80
    ensures r < 80
  {
    (start + n) % 80
  }

  /** The DDRAM address a print call selects. */
  function Selected(line: bv8, pos: bv8): int {
    Position(line, pos) as int
  }

  /** The print position names a cell of the display. */
  predicate Addressable(line: bv8, pos: bv8) {
    Selected(line, pos) < 128 && HasCell(true, Selected(line, pos))
  }

  predicate Valid(call: Call) {
    call.Print? ==> Addressable(call.line, call.pos)
  }

  function Apply(call: Call, s: Screen): Screen
    requires Valid(call)
  {
    match call
    case Print(text, line, pos) =>
      var start := Slot(true, Selected(line, pos));
      Screen(WriteRing(s.cells, start, text), Advance(start, |text|), true)
    case Clear => Screen(BlankRam(), 0, true)
    case Backlight(on) => s.(lit := on)
  }

  function ApplyAll(calls: seq<Call>, s: Screen): Screen
    requires forall c :: c in calls ==> Valid(c)
  {
    if calls == [] then s else ApplyAll(calls[1..], Apply(calls[0], s))
  }

  /** Between calls: EN low, interface aligned, DDRAM selected at an existing cell. */
  predicate Ready(m: Machine) {
    && m.lines & EN == 0
    && Synced(m.chip)
    && m.chip.area == Ddram && HasCell(true, m.chip.ac)
  }

  function View(m: Machine): Screen
    requires Ready(m)
  {
    Screen(m.chip.ddram, Slot(true, m.chip.ac), m.lines & BL != 0)
  }

  lemma NextSlot(a: Address)
    requires HasCell(true, a)
    ensures HasCell(true, NextAddress(true, a))
    ensures Slot(true, NextAddress(true, a)) == Up(Slot(true, a), 80)
  {
  }

  lemma AdvanceSteps(start: nat, n: nat)
    requires start < 80
    ensures Advance(start, 0) == start
    ensures Advance(Up(start, 80), n) == Advance(start, n + 1)
  {
  }

  lemma WriteDataOnReady(b: bv8, c: Chip)
    requires Synced(c) && c.area == Ddram && HasCell(true, c.ac)
    ensures var c' := WriteData(b, c);
            && c' == c.(ddram := c.ddram[Slot(true, c.ac) := b], ac := NextAddress(true, c.ac))
            && Synced(c') && HasCell(true, c'.ac)
            && Slot(true, c'.ac) == Up(Slot(true, c.ac), 80)
  {
    NextSlot(c.ac);
  }

  lemma {:induction false} TextRuns(text: seq<bv8>, noise: nat -> Noise, t: nat, m: Machine)
    requires Ready(m)
    ensures var m' := Run(Text(text), noise, t, m);
            && Ready(m')
            && m'.chip.cgram == m.chip.cgram
            && View(m').cells == WriteRing(View(m).cells, View(m).cursor, text)
            && View(m').cursor == Advance(View(m).cursor, |text|)
            && (text != [] ==> View(m').lit) && (View(m).lit ==> View(m').lit)
    decreases |text|
  {
    AdvanceSteps(View(m).cursor, 0);
    if text != [] {
      WriteModeCompletes(text[0], RS, noise, t, m);
      WriteDataOnReady(text[0], m.chip);
      var m1 := Run(WriteMode(text[0], RS), noise, t, m);
      RunConcat(WriteMode(text[0], RS), Text(text[1..]), noise, t, m);
      TextRuns(text[1..], noise, t + 6, m1);
      AdvanceSteps(View(m).cursor, |text| - 1);
    }
  }

  // ---------------------------------------------------------- whole calls

  lemma SetAddressDecodes(a: bv8)
    requires a < 0x80
    ensures 0 <= a as int < 128 && Decode(0x80 + a) == SetDdram(a as int)
  {
    assert (0x80 + a) & 0x80 != 0;
    assert (0x80 + a) & 0x7F == a;
  }

  lemma AddressCommandRuns(a: bv8, noise: nat -> Noise, t: nat, m: Machine)
    requires Ready(m) && a < 0x80 && HasCell(true, a as int)
    ensures var m' := Run(WriteMode(0x80 + a, 0), noise, t, m);
            && Ready(m') && m'.chip.cgram == m.chip.cgram
            && View(m') == Screen(View(m).cells, Slot(true, a as int), true)
  {
    WriteModeCompletes(0x80 + a, 0, noise, t, m);
    SetAddressDecodes(a);
  }

  lemma TextAtAddressRuns(text: seq<bv8>, a: bv8, noise: nat -> Noise, t: nat, m: Machine)
    requires Ready(m) && a < 0x80 && HasCell(true, a as int)
    ensures var m' := Run(WriteMode(0x80 + a, 0) + Text(text), noise, t, m);
            var start := Slot(true, a as int);
            && Ready(m') && m'.chip.cgram == m.chip.cgram
            && View(m') == Screen(WriteRing(View(m).cells, start, text), Advance(start, |text|), true)
  {
    AddressCommandRuns(a, noise, t, m);
    var head := WriteMode(0x80 + a, 0);
    RunConcat(head, Text(text), noise, t, m);
    TextRuns(text, noise, t + |head|, Run(head, noise, t, m));
  }

  lemma PrintRuns(text: seq<bv8>, line: bv8, pos: bv8, noise: nat -> Noise, t: nat, m: Machine)
    requires Ready(m) && Addressable(line, pos)
    ensures var m' := Run(Trace(Print(text, line, pos)), noise, t, m);
            && Ready(m') && m'.chip.cgram == m.chip.cgram
            && View(m') == Apply(Print(text, line, pos), View(m))
  {
    SelectedIsAddress(line, pos);
    PrintTrace(text, line, pos);
    TextAtAddressRuns(text, Position(line, pos), noise, t, m);
  }

  lemma SelectedIsAddress(line: bv8, pos: bv8)
    ensures Selected(line, pos) < 128 <==> Position(line, pos) < 0x80
    ensures PrintCommand(line, pos) == 0x80 + Position(line, pos)
  {
  }

  lemma ClearRuns(noise: nat -> Noise, t: nat, m: Machine)
    requires Ready(m)
    ensures var m' := Run(Trace(Clear), noise, t, m);
            && Ready(m') && m'.chip.cgram == m.chip.cgram
            && View(m') == Screen(BlankRam(), 0, true)
  {
    var head := WriteMode(CLEARDISPLAY, 0);
    RunConcat(head, WriteMode(RETURNHOME, 0), noise, t, m);
    WriteModeCompletes(CLEARDISPLAY, 0, noise, t, m);
    assert Decode(CLEARDISPLAY) == ClearDisplay;
    WriteModeCompletes(RETURNHOME, 0, noise, t + |head|, Run(head, noise, t, m));
    assert Decode(RETURNHOME) == ReturnHome;
  }

  lemma BacklightRuns(on: bool, noise: nat -> Noise, t: nat, m: Machine)
    requires Ready(m)
    ensures var m' := Run(Trace(Backlight(on)), noise, t, m);
            Ready(m') && m'.chip == m.chip && View(m') == View(m).(lit := on)
  {
    var b := if on then BL else 0;
    assert b & EN == 0 && (b & BL != 0) == on;
    assert [b][1..] == [];
    assert Run([b], noise, t, m) == Run([], noise, t + 1, Machine(b, m.chip));
  }

  lemma CallRuns(call: Call, noise: nat -> Noise, t: nat, m: Machine)
    requires Ready(m) && Valid(call)
    ensures var m' := Run(Trace(call), noise, t, m);
            && Ready(m') && m'.chip.cgram == m.chip.cgram
            && View(m') == Apply(call, View(m))
  {
    match call
    case Print(text, line, pos) => PrintRuns(text, line, pos, noise, t, m);
    case Clear => ClearRuns(noise, t, m);
    case Backlight(on) => BacklightRuns(on, noise, t, m);
  }

  /** Any run of calls that name existing cells: the byte trace leaves the controller ready
      and showing what the calls say, whatever the noise. */
  lemma {:induction false} CallsRun(calls: seq<Call>, noise: nat -> Noise, t: nat, m: Machine)
    requires Ready(m) && forall c :: c in calls ==> Valid(c)
    ensures var m' := Run(Traces(calls), noise, t, m);
            && Ready(m') && m'.chip.cgram == m.chip.cgram
            && View(m') == ApplyAll(calls, View(m))
    decreases |calls|
  {
    if calls != [] {
      CallRuns(calls[0], noise, t, m);
      RunConcat(Trace(calls[0]), Traces(calls[1..]), noise, t, m);
      CallsRun(calls[1..], noise, t + |Trace(calls[0])|, Run(Trace(calls[0]), noise, t, m));
    }
  }

  /** Ready, the screen and CGRAM fix the whole controller. */
  lemma ViewDeterminesChip(m: Machine, m': Machine)
    requires Ready(m) && Ready(m') && m.chip.cgram == m'.chip.cgram
    requires View(m).cells == View(m').cells && View(m).cursor == View(m').cursor
    ensures m.chip == m'.chip
  {
  }

  /** From power-up in any state, through setup and any run of valid calls. */
  lemma SetupThenCalls(calls: seq<Call>, noise: nat -> Noise, t: nat, m: Machine)
    requires forall c :: c in calls ==> Valid(c)
    ensures var m' := Run(Commands(SETUP) + Traces(calls), noise, t, m);
            Ready(m') && View(m') == ApplyAll(calls, Screen(BlankRam(), 0, true))
  {
    var m1 := Run(Commands(SETUP), noise, t, m);
    SetupFromAnyState(noise, t, m);
    assert Ready(m1) && View(m1) == Screen(BlankRam(), 0, true);
    RunConcat(Commands(SETUP), Traces(calls), noise, t, m);
    CallsRun(calls, noise, t + |Commands(SETUP)|, m1);
  }
}
