/** The bus traffic read as an oscilloscope on the wires would: the enable line is bit 2, the
    register-select line bit 0, read/write bit 1, the backlight bit 3, data bits 7 to 4. What is
    read is stated in the numbers of the HD44780U instruction table. */
module LcdReading {
  import opened LcdDriver
  import opened LcdTransfers

  /** The data lines at one fall of the enable line, and whether the data register is selected. */
  datatype Nibble = Nibble(value: bv8, data: bool)

  function Lines(b: bv8): Nibble {
    Nibble(b >> 4, b & 0x01 != 0)
  }

  /** What is on the lines whenever enable falls, sampled before the fall or after it. */
  function Falls(after: bool, now: bv8, trace: seq<bv8>): seq<Nibble>
    decreases |trace|
  {
    if trace == [] then []
    else
      var b := trace[0];
      (if now & 0x04 != 0 && b & 0x04 == 0 then [Lines(if after then b else now)] else [])
        + Falls(after, b, trace[1..])
  }

  /** Two nibbles with the same register make a byte, high half first; others make none. */
  function Paired(ns: seq<Nibble>): seq<Transfer>
    decreases |ns|
  {
    if |ns| < 2 || ns[0].data != ns[1].data then []
    else [Transfer((ns[0].value << 4) | ns[1].value, ns[0].data)] + Paired(ns[2..])
  }

  /** The halves of bytes, in order. */
  function Halves(ts: seq<Transfer>): seq<Nibble>
    decreases |ts|
  {
    if ts == [] then []
    else [Nibble(ts[0].b >> 4, ts[0].rs), Nibble(ts[0].b & 0x0F, ts[0].rs)] + Halves(ts[1..])
  }

  lemma PairedFirst(b: bv8, rs: bool, rest: seq<Nibble>)
    ensures Paired([Nibble(b >> 4, rs), Nibble(b & 0x0F, rs)] + rest) == [Transfer(b, rs)] + Paired(rest)
  {
    var ns := [Nibble(b >> 4, rs), Nibble(b & 0x0F, rs)] + rest;
    assert ((b >> 4) << 4) | (b & 0x0F) == b;
    assert ns[2..] == rest;
  }

  lemma {:induction false} PairedHalves(ts: seq<Transfer>)
    ensures Paired(Halves(ts)) == ts
    decreases |ts|
  {
    if ts != [] {
      PairedFirst(ts[0].b, ts[0].rs, Halves(ts[1..]));
      PairedHalves(ts[1..]);
      assert [Transfer(ts[0].b, ts[0].rs)] + ts[1..] == ts;
    }
  }

  lemma HalvesOne(b: bv8, rs: bool)
    ensures Halves([Transfer(b, rs)]) == [Nibble(b >> 4, rs)] + [Nibble(b & 0x0F, rs)]
  {
    var ts := [Transfer(b, rs)];
    assert ts[1..] == [];
    assert Halves(ts) == [Nibble(b >> 4, rs), Nibble(b & 0x0F, rs)] + Halves([]);
  }

  lemma {:induction false} HalvesConcat(a: seq<Transfer>, b: seq<Transfer>)
    ensures Halves(a + b) == Halves(a) + Halves(b)
    decreases |a|
  {
    if a == [] {
      assert a + b == b;
    } else {
      assert (a + b)[1..] == a[1..] + b;
      HalvesConcat(a[1..], b);
    }
  }

  /** A trace that starts on a low enable line, leaves it low, and carries these bytes. */
  ghost predicate Carries(trace: seq<bv8>, ts: seq<Transfer>) {
    && (trace != [] ==> trace[|trace| - 1] & 0x04 == 0)
    && forall after, now :: now & 0x04 == 0 ==> Falls(after, now, trace) == Halves(ts)
  }

  lemma {:induction false} FallsConcat(after: bool, now: bv8, a: seq<bv8>, b: seq<bv8>)
    ensures Falls(after, now, a + b) ==
            Falls(after, now, a) + Falls(after, if a == [] then now else a[|a| - 1], b)
    decreases |a|
  {
    if a == [] {
      assert a + b == b;
    } else {
      assert (a + b)[1..] == a[1..] + b;
      FallsConcat(after, a[0], a[1..], b);
    }
  }

  lemma CarriesConcat(a: seq<bv8>, ts: seq<Transfer>, b: seq<bv8>, us: seq<Transfer>)
    requires Carries(a, ts) && Carries(b, us)
    ensures Carries(a + b, ts + us)
  {
    HalvesConcat(ts, us);
    forall after, now | now & 0x04 == 0 ensures Falls(after, now, a + b) == Halves(ts + us) {
      FallsConcat(after, now, a, b);
    }
  }

  lemma CarriesNothing()
    ensures Carries([], [])
  {
  }

  lemma FallsOfThree(after: bool, now: bv8, a: bv8, b: bv8, c: bv8)
    requires now & 0x04 == 0 && a & 0x04 == 0 && b & 0x04 != 0 && c & 0x04 == 0
    ensures Falls(after, now, [a, b, c]) == [Lines(if after then c else b)]
  {
    assert [a, b, c][1..] == [b, c] && [b, c][1..] == [c] && [c][1..] == [];
    assert Falls(after, b, [c]) == [Lines(if after then c else b)] + Falls(after, c, []);
    assert Falls(after, a, [b, c]) == [] + Falls(after, b, [c]);
  }

  /** The three bytes of a four-bit write, in numbers. */
  lemma FourBitsLines(d: bv8)
    requires d & 0x0E == 0
    ensures var t := FourBits(d);
            && |t| == 3
            && t[0] & 0x04 == 0 && t[1] & 0x04 != 0 && t[2] & 0x04 == 0
            && (forall i :: 0 <= i < 3 ==> Lines(t[i]) == Lines(d) && t[i] & 0x08 != 0 && t[i] & 0x02 == 0)
  {
  }

  lemma FourBitsFalls(after: bool, now: bv8, d: bv8)
    requires d & 0x0E == 0 && now & 0x04 == 0
    ensures Falls(after, now, FourBits(d)) == [Lines(d)]
  {
    var t := FourBits(d);
    FourBitsLines(d);
    assert t == [t[0], t[1], t[2]];
    FallsOfThree(after, now, t[0], t[1], t[2]);
  }

  /** The bits of a byte that is written half by half. */
  lemma ModeBits(c: bv8, mode: bv8)
    requires mode == 0x00 || mode == 0x01
    ensures var high, low := mode | (c & 0xF0), mode | ((c << 4) & 0xF0);
            && high & 0x0E == 0 && low & 0x0E == 0
            && Lines(high) == Nibble(c >> 4, mode == 0x01) && Lines(low) == Nibble(c & 0x0F, mode == 0x01)
  {
  }

  /** Six bytes: enable falls twice, on the two halves; backlight on and read/write low
      throughout. */
  lemma WriteModeCarries(c: bv8, mode: bv8)
    requires mode == 0x00 || mode == 0x01
    ensures Carries(WriteMode(c, mode), [Transfer(c, mode == 0x01)]) && OnlyWritesLit(WriteMode(c, mode))
  {
    ModeBits(c, mode);
    HalvesOne(c, mode == 0x01);
    TwoHalvesCarry(mode | (c & 0xF0), mode | ((c << 4) & 0xF0), [Transfer(c, mode == 0x01)]);
  }

  lemma TwoHalvesCarry(high: bv8, low: bv8, ts: seq<Transfer>)
    requires high & 0x0E == 0 && low & 0x0E == 0 && Halves(ts) == [Lines(high)] + [Lines(low)]
    ensures Carries(FourBits(high) + FourBits(low), ts) && OnlyWritesLit(FourBits(high) + FourBits(low))
  {
    FourBitsLines(high);
    FourBitsLines(low);
    forall after, now | now & 0x04 == 0 ensures Falls(after, now, FourBits(high) + FourBits(low)) == Halves(ts) {
      FourBitsFalls(after, now, high);
      FourBitsFalls(after, FourBits(high)[2], low);
      FallsConcat(after, now, FourBits(high), FourBits(low));
    }
  }

  /** Backlight on, read/write low, in every byte. */
  predicate OnlyWritesLit(trace: seq<bv8>) {
    forall i :: 0 <= i < |trace| ==> trace[i] & 0x08 != 0 && trace[i] & 0x02 == 0
  }

  lemma {:induction false} TextCarries(text: seq<bv8>)
    ensures Carries(Text(text), Characters(text)) && OnlyWritesLit(Text(text))
    decreases |text|
  {
    if text == [] {
      CarriesNothing();
      assert Characters(text) == [];
    } else {
      WriteModeCarries(text[0], 0x01);
      TextCarries(text[1..]);
      CarriesConcat(WriteMode(text[0], 0x01), [Transfer(text[0], true)], Text(text[1..]), Characters(text[1..]));
      assert Characters(text) == [Transfer(text[0], true)] + Characters(text[1..]);
    }
  }

  function Instructions(cs: seq<bv8>): (ts: seq<Transfer>)
    ensures |ts| == |cs| && forall i :: 0 <= i < |cs| ==> ts[i] == Transfer(cs[i], false)
  {
    seq(|cs|, i requires 0 <= i < |cs| => Transfer(cs[i], false))
  }

  lemma {:induction false} CommandsCarry(cs: seq<bv8>)
    ensures Carries(Commands(cs), Instructions(cs)) && OnlyWritesLit(Commands(cs))
    decreases |cs|
  {
    if cs == [] {
      CarriesNothing();
      assert Instructions(cs) == [];
    } else {
      WriteModeCarries(cs[0], 0x00);
      CommandsCarry(cs[1..]);
      CarriesConcat(WriteMode(cs[0], 0x00), [Transfer(cs[0], false)], Commands(cs[1..]), Instructions(cs[1..]));
      assert Instructions(cs) == [Transfer(cs[0], false)] + Instructions(cs[1..]);
    }
  }

  // ---------------------------------------------------- what the calls say

  /** What the wires carry, as bytes. */
  function Read(after: bool, now: bv8, trace: seq<bv8>): seq<Transfer> {
    Paired(Falls(after, now, trace))
  }

  lemma CarriesRead(trace: seq<bv8>, ts: seq<Transfer>, after: bool, now: bv8)
    requires Carries(trace, ts) && now & 0x04 == 0
    ensures Read(after, now, trace) == ts
  {
    PairedHalves(ts);
  }

  /** Setup is the initialisation by instruction of the datasheet: 3, 3, 3, 2, then two lines,
      display on, clear, increment. */
  lemma SetupReads(after: bool, now: bv8)
    requires now & 0x04 == 0
    ensures var ts := Read(after, now, Commands(SETUP));
            && |ts| == 8 && (forall i :: 0 <= i < 8 ==> !ts[i].rs)
            && ts[0].b == ts[1].b == ts[2].b == 0x03 && ts[3].b == 0x02
            && ts[4].b == 0x28 && ts[5].b == 0x0C && ts[6].b == 0x01 && ts[7].b == 0x06
    ensures OnlyWritesLit(Commands(SETUP))
  {
    CommandsCarry(SETUP);
    CarriesRead(Commands(SETUP), Instructions(SETUP), after, now);
  }

  /** A print is one Set-DDRAM-Address instruction, 0x80 plus an address that is the position
      on line 1 (and on any line that does not exist), 0x40 further on line 2, 20 further than
      line 1 on line 3 and 20 further than line 2 on line 4, all modulo 256; and then its
      characters, in order, as data. */
  lemma PrintReads(text: seq<bv8>, line: bv8, pos: bv8, after: bool, now: bv8)
    requires now & 0x04 == 0
    ensures var ts := Read(after, now, Trace(Print(text, line, pos)));
            && |ts| == 1 + |text| && !ts[0].rs
            && ts[0].b == (if line == 2 then 0x80 + 0x40 + pos
                           else if line == 3 then 0x80 + 20 + pos
                           else if line == 4 then 0x80 + 0x40 + 20 + pos
                           else 0x80 + pos)
            && forall i :: 0 <= i < |text| ==> ts[i + 1].rs && ts[i + 1].b == text[i]
    ensures OnlyWritesLit(Trace(Print(text, line, pos)))
  {
    var cmd := PrintCommand(line, pos);
    PrintCarries(text, line, pos);
    CarriesRead(Trace(Print(text, line, pos)), [Transfer(cmd, false)] + Characters(text), after, now);
  }

  lemma PrintCarries(text: seq<bv8>, line: bv8, pos: bv8)
    ensures var trace := Trace(Print(text, line, pos));
            Carries(trace, [Transfer(PrintCommand(line, pos), false)] + Characters(text)) && OnlyWritesLit(trace)
  {
    var cmd := PrintCommand(line, pos);
    WriteModeCarries(cmd, 0x00);
    TextCarries(text);
    CarriesConcat(WriteMode(cmd, 0x00), [Transfer(cmd, false)], Text(text), Characters(text));
    PrintTrace(text, line, pos);
  }

  /** Clear is clear display, 0x01, and then return home, 0x02. */
  lemma ClearReads(after: bool, now: bv8)
    requires now & 0x04 == 0
    ensures Read(after, now, Trace(Clear)) == [Transfer(0x01, false), Transfer(0x02, false)]
    ensures OnlyWritesLit(Trace(Clear))
  {
    ClearCarries();
    CarriesRead(Trace(Clear), [Transfer(0x01, false), Transfer(0x02, false)], after, now);
  }

  lemma ClearCarries()
    ensures Carries(Trace(Clear), [Transfer(0x01, false), Transfer(0x02, false)]) && OnlyWritesLit(Trace(Clear))
  {
    WriteModeCarries(0x01, 0x00);
    WriteModeCarries(0x02, 0x00);
    CarriesConcat(WriteMode(0x01, 0), [Transfer(0x01, false)], WriteMode(0x02, 0), [Transfer(0x02, false)]);
    assert [Transfer(0x01, false)] + [Transfer(0x02, false)] == [Transfer(0x01, false), Transfer(0x02, false)];
  }

  /** A backlight call is one byte, bit 3 or nothing, and carries no transfer. */
  lemma BacklightReads(on: bool, after: bool, now: bv8)
    requires now & 0x04 == 0
    ensures Trace(Backlight(on)) == [if on then 0x08 else 0x00]
    ensures Read(after, now, Trace(Backlight(on))) == []
  {
    BacklightCarries(on);
    CarriesRead(Trace(Backlight(on)), [], after, now);
  }

  lemma BacklightCarries(on: bool)
    ensures Carries(Trace(Backlight(on)), [])
  {
    var b: bv8 := if on then 0x08 else 0x00;
    forall after, now | now & 0x04 == 0 ensures Falls(after, now, [b]) == [] {
      assert Falls(after, now, [b]) == [] + Falls(after, b, []) by { assert [b][1..] == []; }
    }
  }

  lemma CallCarries(call: Call)
    ensures Carries(Trace(call), Transfers(call))
  {
    match call
    case Print(text, line, pos) => PrintCarries(text, line, pos);
    case Clear => ClearCarries();
    case Backlight(on) => BacklightCarries(on);
  }

  /** Over any run of calls the wires carry the bytes of each, in order. */
  lemma {:induction false} RunCarries(calls: seq<Call>)
    ensures Carries(Traces(calls), AllTransfers(calls))
    decreases |calls|
  {
    if calls == [] {
      CarriesNothing();
    } else {
      CallCarries(calls[0]);
      RunCarries(calls[1..]);
      CarriesConcat(Trace(calls[0]), Transfers(calls[0]), Traces(calls[1..]), AllTransfers(calls[1..]));
    }
  }

  lemma RunReads(calls: seq<Call>, call: Call, after: bool, now: bv8)
    requires now & 0x04 == 0
    ensures Read(after, now, Traces(calls + [call])) ==
            Read(after, now, Traces(calls)) + Read(after, now, Trace(call))
  {
    RunCarries(calls);
    CallCarries(call);
    TracesConcat(calls, [call]);
    TracesOfOne(call);
    CarriesConcat(Traces(calls), AllTransfers(calls), Trace(call), Transfers(call));
    CarriesRead(Traces(calls + [call]), AllTransfers(calls) + Transfers(call), after, now);
    CarriesRead(Traces(calls), AllTransfers(calls), after, now);
    CarriesRead(Trace(call), Transfers(call), after, now);
  }
}
