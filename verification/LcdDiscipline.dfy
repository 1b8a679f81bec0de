/** What holds of every byte trace the driver emits. */
module LcdDiscipline {
  import opened Hd44780
  import opened LcdDriver
  import opened LcdLatching

  /** RW is never raised, the trace begins and ends with EN low, and around every byte with
      EN high D7..D4, backlight and RS are the same before, during and after. */
  ghost predicate Disciplined(trace: seq<bv8>) {
    && trace != []
    && trace[0] & EN == 0 && trace[|trace| - 1] & EN == 0
    && (forall i :: 0 <= i < |trace| ==> trace[i] & RW == 0)
    && (forall i :: 0 < i < |trace| - 1 && trace[i] & EN != 0 ==>
          trace[i - 1] == trace[i] & !EN == trace[i + 1])
  }

  /** The backlight output after a non-empty trace. */
  predicate EndsLit(trace: seq<bv8>)
    requires trace != []
  {
    trace[|trace| - 1] & BL != 0
  }

  lemma DisciplinedConcat(a: seq<bv8>, b: seq<bv8>)
    requires Disciplined(a) && Disciplined(b)
    ensures Disciplined(a + b) && (EndsLit(a + b) <==> EndsLit(b))
  {
    var ab := a + b;
    assert ab[0] == a[0] && ab[|ab| - 1] == b[|b| - 1];
    forall i | 0 < i < |ab| - 1 && ab[i] & EN != 0
      ensures ab[i - 1] == ab[i] & !EN == ab[i + 1]
    {
      if i < |a| {
        assert i < |a| - 1;
        assert ab[i - 1] == a[i - 1] && ab[i] == a[i] && ab[i + 1] == a[i + 1];
      } else {
        var j := i - |a|;
        assert ab[i] == b[j];
        assert 0 < j;
        assert ab[i - 1] == b[j - 1] && ab[i + 1] == b[j + 1];
      }
    }
  }

  lemma FourBitsDisciplined(d: bv8)
    requires d & 0x0E == 0
    ensures Disciplined(FourBits(d))
  {
    LinesOfNibble(d);
    assert (d | EN | BL) & !EN == d | BL;
  }

  lemma WriteModeDisciplined(c: bv8, mode: bv8)
    requires mode == 0 || mode == RS
    ensures Disciplined(WriteMode(c, mode)) && |WriteMode(c, mode)| == 6
    ensures EndsLit(WriteMode(c, mode))
  {
    NibblesOfByte(c, mode);
    var high, low := mode | (c & 0xF0), mode | ((c << 4) & 0xF0);
    FourBitsDisciplined(high);
    FourBitsDisciplined(low);
    DisciplinedConcat(FourBits(high), FourBits(low));
    assert WriteMode(c, mode)[5] == FourBits(low)[2];
    LinesOfNibble(low);
  }

  lemma PrintDisciplined(c: bv8, text: seq<bv8>)
    ensures var trace := WriteMode(c, 0) + Text(text);
            Disciplined(trace) && |trace| == 6 * (|text| + 1) && EndsLit(trace)
  {
    WriteModeDisciplined(c, 0);
    TextDisciplined(text);
    if text != [] {
      DisciplinedConcat(WriteMode(c, 0), Text(text));
    } else {
      assert WriteMode(c, 0) + Text(text) == WriteMode(c, 0);
    }
  }

  lemma ClearDisciplined()
    ensures Disciplined(Trace(Clear)) && |Trace(Clear)| == 12 && EndsLit(Trace(Clear))
  {
    WriteModeDisciplined(CLEARDISPLAY, 0);
    WriteModeDisciplined(RETURNHOME, 0);
    DisciplinedConcat(WriteMode(CLEARDISPLAY, 0), WriteMode(RETURNHOME, 0));
  }

  lemma BacklightDisciplined(on: bool)
    ensures Disciplined(Trace(Backlight(on))) && (EndsLit(Trace(Backlight(on))) <==> on)
  {
    var b := if on then BL else 0;
    assert b & EN == 0 && b & RW == 0 && (b & BL != 0) == on;
  }

  lemma {:induction false} TextDisciplined(s: seq<bv8>)
    ensures |Text(s)| == 6 * |s|
    ensures s != [] ==> Disciplined(Text(s)) && EndsLit(Text(s))
  {
    if s != [] {
      WriteModeDisciplined(s[0], RS);
      TextDisciplined(s[1..]);
      if |s| > 1 {
        DisciplinedConcat(WriteMode(s[0], RS), Text(s[1..]));
      } else {
        assert Text(s) == WriteMode(s[0], RS);
      }
    }
  }

  lemma PrintCallDisciplined(text: seq<bv8>, line: bv8, pos: bv8)
    ensures var trace := Trace(Print(text, line, pos));
            Disciplined(trace) && |trace| == 6 * (|text| + 1) && EndsLit(trace)
  {
    var cmd := PrintCommand(line, pos);
    PrintDisciplined(cmd, text);
    PrintTrace(text, line, pos);
  }

  function Size(call: Call): nat {
    match call
    case Print(text, _, _) => 6 * (|text| + 1)
    case Clear => 12
    case Backlight(_) => 1
  }

  /** One call: disciplined, of known length, and lit at the end unless it is backlight off. */
  lemma CallDisciplined(call: Call)
    ensures Disciplined(Trace(call)) && |Trace(call)| == Size(call)
    ensures EndsLit(Trace(call)) <==> call != Backlight(false)
  {
    match call
    case Print(text, line, pos) => PrintCallDisciplined(text, line, pos);
    case Clear => ClearDisciplined();
    case Backlight(on) => BacklightDisciplined(on);
  }

  function Join(parts: seq<seq<bv8>>): seq<bv8> {
    if parts == [] then [] else parts[0] + Join(parts[1..])
  }

  lemma {:induction false} JoinDisciplined(parts: seq<seq<bv8>>)
    requires parts != [] && forall i :: 0 <= i < |parts| ==> Disciplined(parts[i])
    ensures Disciplined(Join(parts)) && Disciplined(parts[|parts| - 1])
    ensures EndsLit(Join(parts)) <==> EndsLit(parts[|parts| - 1])
  {
    if |parts| == 1 {
      assert Join(parts) == parts[0] + Join([]);
      assert Join(parts) == parts[0];
    } else {
      JoinDisciplined(parts[1..]);
      DisciplinedConcat(parts[0], Join(parts[1..]));
    }
  }

  function Parts(calls: seq<Call>): (parts: seq<seq<bv8>>)
    ensures |parts| == |calls| && forall i :: 0 <= i < |calls| ==> parts[i] == Trace(calls[i])
  {
    seq(|calls|, i requires 0 <= i < |calls| => Trace(calls[i]))
  }

  lemma {:induction false} TracesJoin(calls: seq<Call>)
    ensures Traces(calls) == Join(Parts(calls))
  {
    if calls != [] {
      TracesJoin(calls[1..]);
      assert Parts(calls)[1..] == Parts(calls[1..]);
    }
  }

  /** Bus discipline over every run of calls, in range or not. */
  lemma RunDisciplined(calls: seq<Call>)
    requires calls != []
    ensures Disciplined(Traces(calls))
    ensures EndsLit(Traces(calls)) <==> calls[|calls| - 1] != Backlight(false)
  {
    var parts := Parts(calls);
    forall i | 0 <= i < |parts| ensures Disciplined(parts[i]) {
      CallDisciplined(calls[i]);
    }
    CallDisciplined(calls[|calls| - 1]);
    JoinDisciplined(parts);
    TracesJoin(calls);
  }

  lemma {:induction false} SetupDisciplined(bs: seq<bv8>)
    requires bs != []
    ensures Disciplined(Commands(bs)) && |Commands(bs)| == 6 * |bs| && EndsLit(Commands(bs))
  {
    WriteModeDisciplined(bs[0], 0);
    if |bs| == 1 {
      assert Commands(bs) == WriteMode(bs[0], 0) + Commands([]);
    } else {
      SetupDisciplined(bs[1..]);
      DisciplinedConcat(WriteMode(bs[0], 0), Commands(bs[1..]));
    }
  }

  // ---------------------------------------------------------- the backlight

  predicate Lit(m: Machine) {
    m.lines & BL != 0
  }

  /** The output lines follow the last byte, whatever the controller is doing. */
  lemma {:induction false} LinesFollow(trace: seq<bv8>, noise: nat -> Noise, t: nat, m: Machine)
    requires trace != []
    ensures Run(trace, noise, t, m).lines == trace[|trace| - 1]
    decreases |trace|
  {
    if |trace| > 1 {
      LinesFollow(trace[1..], noise, t + 1, Step(trace[0], noise(t), m));
    } else {
      assert trace[1..] == [];
    }
  }

  /** Every byte on the write path carries the backlight bit: in whatever state the display
      is, a print, in range or not, or a clear leaves the backlight as it was exactly when it
      was on. */
  lemma BacklightKeptIff(call: Call, noise: nat -> Noise, t: nat, m: Machine)
    requires !call.Backlight?
    ensures Lit(Run(Trace(call), noise, t, m)) == Lit(m) <==> Lit(m)
  {
    CallDisciplined(call);
    LinesFollow(Trace(call), noise, t, m);
  }

  /** After any run of calls the backlight is off exactly when the last of them switched it
      off; setup turns it on. */
  lemma BacklightAfter(calls: seq<Call>, noise: nat -> Noise, t: nat, m: Machine)
    ensures calls != [] ==> (Lit(Run(Traces(calls), noise, t, m)) <==> calls[|calls| - 1] != Backlight(false))
    ensures Lit(Run(Commands(SETUP), noise, t, m))
  {
    if calls != [] {
      RunDisciplined(calls);
      LinesFollow(Traces(calls), noise, t, m);
    }
    SetupDisciplined(SETUP);
    LinesFollow(Commands(SETUP), noise, t, m);
  }
}
