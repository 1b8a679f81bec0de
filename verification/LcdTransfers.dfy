/** The driver as a compiler: which bytes a call transfers to the controller, and the proof
    that the bus traffic executes exactly those, in order. */
module LcdTransfers {
  import opened Hd44780
  import opened LcdDriver
  import opened LcdLatching
  import opened LcdScreen
  import opened LcdGeometry

  /** A whole byte for the instruction register or, with rs, for the data register. */
  datatype Transfer = Transfer(b: bv8, rs: bool)

  function Characters(text: seq<bv8>): seq<Transfer> {
    seq(|text|, i requires 0 <= i < |text| => Transfer(text[i], true))
  }

  /** The instructions and data of a call in the controller's own terms. */
  function Transfers(call: Call): seq<Transfer> {
    match call
    case Print(text, line, pos) => [Transfer(PrintCommand(line, pos), false)] + Characters(text)
    case Clear => [Transfer(0x01, false), Transfer(0x02, false)]
    case Backlight(_) => []
  }

  function AllTransfers(calls: seq<Call>): seq<Transfer> {
    if calls == [] then [] else Transfers(calls[0]) + AllTransfers(calls[1..])
  }

  /** The controller given whole bytes instead of nibbles on an edge. */
  function ExecuteAll(ts: seq<Transfer>, c: Chip): Chip
    decreases |ts|
  {
    if ts == [] then c else ExecuteAll(ts[1..], Complete(ts[0].b, ts[0].rs, false, c))
  }

  lemma {:induction false} ExecuteAllConcat(a: seq<Transfer>, b: seq<Transfer>, c: Chip)
    ensures ExecuteAll(a + b, c) == ExecuteAll(b, ExecuteAll(a, c))
    decreases |a|
  {
    if a == [] {
      assert a + b == b;
    } else {
      assert (a + b)[1..] == a[1..] + b;
      ExecuteAllConcat(a[1..], b, Complete(a[0].b, a[0].rs, false, c));
    }
  }

  lemma ExecuteOne(t: Transfer, c: Chip)
    ensures ExecuteAll([t], c) == Complete(t.b, t.rs, false, c)
  {
    assert [t][1..] == [];
  }

  lemma {:induction false} TextExecutes(text: seq<bv8>, noise: nat -> Noise, t: nat, m: Machine)
    requires Ready(m)
    ensures Run(Text(text), noise, t, m).chip == ExecuteAll(Characters(text), m.chip)
    decreases |text|
  {
    if text != [] {
      var m1 := Run(WriteMode(text[0], RS), noise, t, m);
      WriteModeCompletes(text[0], RS, noise, t, m);
      WriteDataOnReady(text[0], m.chip);
      RunConcat(WriteMode(text[0], RS), Text(text[1..]), noise, t, m);
      TextExecutes(text[1..], noise, t + 6, m1);
      assert Characters(text)[1..] == Characters(text[1..]);
    }
  }

  lemma PrintExecutes(text: seq<bv8>, a: bv8, noise: nat -> Noise, t: nat, m: Machine)
    requires Ready(m) && a < 0x80 && HasCell(true, a as int)
    ensures Run(WriteMode(0x80 + a, 0) + Text(text), noise, t, m).chip ==
            ExecuteAll([Transfer(0x80 + a, false)] + Characters(text), m.chip)
  {
    var head, first := WriteMode(0x80 + a, 0), Transfer(0x80 + a, false);
    var m1 := Run(head, noise, t, m);
    WriteModeCompletes(0x80 + a, 0, noise, t, m);
    AddressCommandRuns(a, noise, t, m);
    RunConcat(head, Text(text), noise, t, m);
    TextExecutes(text, noise, t + |head|, m1);
    ExecuteOne(first, m.chip);
    ExecuteAllConcat([first], Characters(text), m.chip);
  }

  lemma ClearExecutes(noise: nat -> Noise, t: nat, m: Machine)
    requires Ready(m)
    ensures Run(Trace(Clear), noise, t, m).chip == ExecuteAll(Transfers(Clear), m.chip)
  {
    var head := WriteMode(CLEARDISPLAY, 0);
    var m1 := Run(head, noise, t, m);
    WriteModeCompletes(CLEARDISPLAY, 0, noise, t, m);
    assert Decode(CLEARDISPLAY) == ClearDisplay;
    RunConcat(head, WriteMode(RETURNHOME, 0), noise, t, m);
    WriteModeCompletes(RETURNHOME, 0, noise, t + |head|, m1);
    ExecuteOne(Transfer(0x01, false), m.chip);
    ExecuteOne(Transfer(0x02, false), m1.chip);
    ExecuteAllConcat([Transfer(0x01, false)], [Transfer(0x02, false)], m.chip);
    assert Transfers(Clear) == [Transfer(0x01, false)] + [Transfer(0x02, false)];
  }

  lemma CallKeepsReady(call: Call, noise: nat -> Noise, t: nat, m: Machine)
    requires Ready(m) && Valid(call)
    ensures Ready(Run(Trace(call), noise, t, m))
  {
    CallRuns(call, noise, t, m);
  }

  lemma CallExecutes(call: Call, noise: nat -> Noise, t: nat, m: Machine)
    requires Ready(m) && Valid(call)
    ensures Run(Trace(call), noise, t, m).chip == ExecuteAll(Transfers(call), m.chip)
  {
    match call
    case Print(text, line, pos) => PrintExecutes(text, Position(line, pos), noise, t, m);
    case Clear => ClearExecutes(noise, t, m);
    case Backlight(on) => BacklightRuns(on, noise, t, m);
  }

  /** Bit-level refinement: the I2C traffic of any run of valid calls, through the edge-
      triggered interface, executes exactly the instructions and data of the calls. */
  lemma {:induction false} CallsExecute(calls: seq<Call>, noise: nat -> Noise, t: nat, m: Machine)
    requires Ready(m) && forall c :: c in calls ==> Valid(c)
    ensures Run(Traces(calls), noise, t, m).chip == ExecuteAll(AllTransfers(calls), m.chip)
    decreases |calls|
  {
    if calls != [] {
      var first := Trace(calls[0]);
      var m1 := Run(first, noise, t, m);
      CallExecutes(calls[0], noise, t, m);
      CallKeepsReady(calls[0], noise, t, m);
      RunConcat(first, Traces(calls[1..]), noise, t, m);
      CallsExecute(calls[1..], noise, t + |first|, m1);
      ExecuteAllConcat(Transfers(calls[0]), AllTransfers(calls[1..]), m.chip);
    }
  }

  /** A call whose position is within its line is one address instruction with the address
      of that line and column, and its characters. */
  lemma PrintTransfers(text: seq<bv8>, line: bv8, pos: bv8)
    requires pos as int < Columns(line)
    ensures var ts := Transfers(Print(text, line, pos));
            && |ts| == 1 + |text|
            && !ts[0].rs && Decode(ts[0].b) == SetDdram(LineOffset(line) + pos as int)
            && forall i :: 0 <= i < |text| ==> ts[i + 1] == Transfer(text[i], true)
  {
    SelectedInRange(line, pos);
    CommandThenText(PrintCommand(line, pos), text);
  }

  lemma CommandThenText(cmd: bv8, text: seq<bv8>)
    ensures var ts := [Transfer(cmd, false)] + Characters(text);
            && |ts| == 1 + |text| && ts[0] == Transfer(cmd, false)
            && forall i :: 0 <= i < |text| ==> ts[i + 1] == Transfer(text[i], true)
  {
  }
}
