/** The LCD driver: what each call puts on the I2C bus, and the driver itself as methods
    that put it there one byte at a time. */
module LcdDriver {
  import opened Seqs
  import opened CStrings
  import opened Hd44780

  const CLEARDISPLAY: bv8 := 0x01
  const RETURNHOME: bv8 := 0x02
  const ENTRYMODESET: bv8 := 0x04
  const DISPLAYCONTROL: bv8 := 0x08
  const FUNCTIONSET: bv8 := 0x20
  const SETDDRAMADDR: bv8 := 0x80
  const MAGIC_INIT_1: bv8 := 0x03
  const MAGIC_INIT_2: bv8 := 0x02
  const ENTRYLEFT: bv8 := 0x02
  const DISPLAYON: bv8 := 0x04
  const TWO_LINE: bv8 := 0x08
  const FONT_5x8: bv8 := 0x00
  const MODE_4BIT: bv8 := 0x00

  function FourBits(d: bv8): seq<bv8> {
    [d | BL, d | EN | BL, (d & !EN) | BL]
  }

  /** The backlight bit 3 is on in all three; enable, bit 2, in the second only. */
  lemma FourBitsInNumbers(d: bv8)
    ensures FourBits(d) == [d | 0x08, d | 0x04 | 0x08, (d & 0xFB) | 0x08]
  {
  }

  function WriteMode(c: bv8, mode: bv8): seq<bv8> {
    FourBits(mode | (c & 0xF0)) + FourBits(mode | ((c << 4) & 0xF0))
  }

  function Commands(cs: seq<bv8>): seq<bv8> {
    if cs == [] then [] else WriteMode(cs[0], 0) + Commands(cs[1..])
  }

  function Text(s: seq<bv8>): seq<bv8> {
    if s == [] then [] else WriteMode(s[0], RS) + Text(s[1..])
  }

  const SETUP: seq<bv8> := [MAGIC_INIT_1, MAGIC_INIT_1, MAGIC_INIT_1, MAGIC_INIT_2, 0x28, 0x0C, 0x01, 0x06]

  /** The uint8_t sum of the line offset and the position: it wraps modulo 256. */
  function Position(line: bv8, pos: bv8): bv8 {
    match line
    case 2 => pos + 0x40
    case 3 => pos + 0x14
    case 4 => pos + 0x54
    case _ => pos
  }

  function LineOffset(line: bv8): nat {
    if line == 2 then 0x40 else if line == 3 then 0x14 else if line == 4 then 0x54 else 0
  }

  lemma AddConstant(p: bv8)
    ensures (p + 0x40) as int == if p as int < 192 then p as int + 0x40 else p as int - 192
    ensures (p + 0x14) as int == if p as int < 236 then p as int + 0x14 else p as int - 236
    ensures (p + 0x54) as int == if p as int < 172 then p as int + 0x54 else p as int - 172
  {
  }

  lemma WrapOnce(x: int)
    requires 0 <= x < 512
    ensures x % 256 == if x < 256 then x else x - 256
  {
  }

  /** The byte arithmetic of the print call is addition modulo 256. */
  lemma PositionIsSum(line: bv8, pos: bv8)
    ensures Position(line, pos) as int == (LineOffset(line) + pos as int) % 256
  {
    AddConstant(pos);
    WrapOnce(LineOffset(line) + pos as int);
  }

  /** The command byte of a print: the position added, modulo 256, to the Set-DDRAM-Address
      code. */
  function PrintCommand(line: bv8, pos: bv8): bv8 {
    SETDDRAMADDR + Position(line, pos)
  }

  /** One call of the driver after setup. */
  datatype Call = Print(text: seq<bv8>, line: bv8, pos: bv8) | Clear | Backlight(on: bool)

  function Trace(call: Call): seq<bv8> {
    match call
    case Print(text, line, pos) => WriteMode(PrintCommand(line, pos), 0) + Text(text)
    case Clear => WriteMode(CLEARDISPLAY, 0) + WriteMode(RETURNHOME, 0)
    case Backlight(on) => [if on then BL else 0]
  }

  function Traces(calls: seq<Call>): seq<bv8> {
    if calls == [] then [] else Trace(calls[0]) + Traces(calls[1..])
  }

  lemma PrintTrace(text: seq<bv8>, line: bv8, pos: bv8)
    ensures Trace(Print(text, line, pos)) == WriteMode(PrintCommand(line, pos), 0) + Text(text)
  {
  }

  lemma TracesOfOne(call: Call)
    ensures Traces([call]) == Trace(call)
  {
    assert [call][1..] == [];
    assert Traces([call]) == Trace(call) + [];
  }

  lemma {:induction false} TracesConcat(a: seq<Call>, b: seq<Call>)
    ensures Traces(a + b) == Traces(a) + Traces(b)
  {
    if a == [] {
      assert a + b == b;
    } else {
      assert (a + b)[1..] == a[1..] + b;
      TracesConcat(a[1..], b);
    }
  }

  /** What arrives of the bytes written: those that are acknowledged. */
  function Acked(acks: nat -> bool, s: seq<bv8>): (r: seq<bv8>)
    ensures |r| <= |s|
  {
    if s == [] then []
    else
      var n := |s| - 1;
      Acked(acks, s[..n]) + if acks(n) then [s[n]] else []
  }

  lemma {:induction false} AllAcked(acks: nat -> bool, s: seq<bv8>)
    requires forall i :: 0 <= i < |s| ==> acks(i)
    ensures Acked(acks, s) == s
  {
    if s != [] {
      AllAcked(acks, s[..|s| - 1]);
      SplitAt(s, |s| - 1);
    }
  }

  lemma {:induction false} SomeLost(acks: nat -> bool, s: seq<bv8>, k: nat)
    requires k < |s| && !acks(k)
    ensures |Acked(acks, s)| < |s|
    decreases |s|
  {
    if k < |s| - 1 {
      SomeLost(acks, s[..|s| - 1], k);
    }
  }

  /** Everything arrives exactly when every byte is acknowledged. */
  lemma AckedIff(acks: nat -> bool, s: seq<bv8>)
    ensures Acked(acks, s) == s <==> forall i :: 0 <= i < |s| ==> acks(i)
  {
    if k: nat :| k < |s| && !acks(k) {
      SomeLost(acks, s, k);
    } else {
      AllAcked(acks, s);
    }
  }

  /** The I2C device: the bytes written so far, and which of them it acknowledges. */
  class I2cBus {
    const acks: nat -> bool
    var written: seq<bv8>

    constructor (acks: nat -> bool)
      ensures written == [] && this.acks == acks
    {
      this.acks := acks;
      written := [];
    }

    /** The bytes that have arrived at the display. */
    ghost function Arrived(): seq<bv8>
      reads this
    {
      Acked(acks, written)
    }

    /** A write on a bad handle is refused; any other is tried once. */
    method WriteByte(handle: int, b: bv8) returns (ret: int)
      modifies this
      ensures handle < 0 ==> ret < 0 && written == old(written) && Arrived() == old(Arrived())
      ensures handle >= 0 ==>
        && written == old(written) + [b]
        && (ret == 0 <==> acks(|old(written)|)) && ret <= 0
        && Arrived() == old(Arrived()) + if ret == 0 then [b] else []
    {
      if handle < 0 { return handle; }
      ghost var n := |written|;
      ret := if acks(|written|) then 0 else -1;
      written := written + [b];
      assert written[..n] == old(written);
    }
  }

  /** Every operation of the driver first refuses a negative handle; otherwise it writes all
      its bytes and reports success, whether or not they are acknowledged. */
  twostate predicate Wrote(bus: I2cBus, handle: int, ret: int, trace: seq<bv8>)
    reads bus
  {
    if handle < 0 then ret == handle && bus.written == old(bus.written)
    else ret == 0 && bus.written == old(bus.written) + trace
  }

  /** Enable, bit 2, goes up and down; the backlight bit 3 stays on. */
  method Strobe(bus: I2cBus, handle: int, data: bv8) returns (ret: int)
    modifies bus
    ensures Wrote(bus, handle, ret, [data | 0x04 | 0x08, (data & 0xFB) | 0x08])
  {
    if 0 > handle { return handle; }
    var _ := bus.WriteByte(handle, data | EN | BL);
    var _ := bus.WriteByte(handle, (data & !EN) | BL);
    ret := 0;
  }

  method WriteFourBits(bus: I2cBus, handle: int, data: bv8) returns (ret: int)
    modifies bus
    ensures Wrote(bus, handle, ret, FourBits(data))
  {
    if 0 > handle { return handle; }
    var _ := bus.WriteByte(handle, data | BL);
    var _ := Strobe(bus, handle, data);
    ret := 0;
  }

  method WriteByMode(bus: I2cBus, handle: int, cmd: bv8, mode: bv8) returns (ret: int)
    modifies bus
    ensures Wrote(bus, handle, ret, WriteMode(cmd, mode))
  {
    if 0 > handle { return handle; }
    var high, low := mode | (cmd & 0xF0), mode | ((cmd << 4) & 0xF0);
    var _ := WriteFourBits(bus, handle, high);
    var _ := WriteFourBits(bus, handle, low);
    ConcatAssociative(old(bus.written), FourBits(high), FourBits(low));
    ret := 0;
  }

  method Write(bus: I2cBus, handle: int, cmd: bv8) returns (ret: int)
    modifies bus
    ensures Wrote(bus, handle, ret, WriteMode(cmd, 0))
  {
    ret := WriteByMode(bus, handle, cmd, 0);
  }

  lemma {:induction false} CommandsConcat(a: seq<bv8>, b: seq<bv8>)
    ensures Commands(a + b) == Commands(a) + Commands(b)
  {
    if a == [] {
      assert a + b == b;
    } else {
      assert (a + b)[1..] == a[1..] + b;
      CommandsConcat(a[1..], b);
    }
  }

  /** One more command at the end of what is already on the bus. */
  lemma OneMoreCommand(bus: seq<bv8>, done: seq<bv8>, c: bv8)
    ensures bus + Commands(done + [c]) == bus + Commands(done) + WriteMode(c, 0)
  {
    CommandsConcat(done, [c]);
    assert Commands([c]) == WriteMode(c, 0) + Commands([]);
    ConcatAssociative(bus, Commands(done), WriteMode(c, 0));
  }

  method NextCommand(bus: I2cBus, handle: int, cmd: bv8, ghost base: seq<bv8>, ghost done: seq<bv8>)
    returns (ghost done': seq<bv8>)
    requires handle >= 0 && bus.written == base + Commands(done)
    modifies bus
    ensures done' == done + [cmd] && bus.written == base + Commands(done')
  {
    var _ := Write(bus, handle, cmd);
    OneMoreCommand(base, done, cmd);
    done' := done + [cmd];
  }

  method Setup(bus: I2cBus, handle: int) returns (ret: int)
    modifies bus
    ensures Wrote(bus, handle, ret, Commands(SETUP))
  {
    if 0 > handle { return handle; }
    ghost var base, done := bus.written, [];
    done := NextCommand(bus, handle, MAGIC_INIT_1, base, done);
    done := NextCommand(bus, handle, MAGIC_INIT_1, base, done);
    done := NextCommand(bus, handle, MAGIC_INIT_1, base, done);
    done := NextCommand(bus, handle, MAGIC_INIT_2, base, done);
    done := NextCommand(bus, handle, FUNCTIONSET | TWO_LINE | FONT_5x8 | MODE_4BIT, base, done);
    done := NextCommand(bus, handle, DISPLAYCONTROL | DISPLAYON, base, done);
    done := NextCommand(bus, handle, CLEARDISPLAY, base, done);
    done := NextCommand(bus, handle, ENTRYMODESET | ENTRYLEFT, base, done);
    assert done == SETUP;
    ret := 0;
  }

  lemma {:induction false} TextConcat(a: seq<bv8>, b: seq<bv8>)
    ensures Text(a + b) == Text(a) + Text(b)
  {
    if a == [] {
      assert a + b == b;
    } else {
      assert (a + b)[1..] == a[1..] + b;
      TextConcat(a[1..], b);
    }
  }

  lemma OneMoreCharacter(bus: seq<bv8>, s: seq<bv8>, k: nat)
    requires k < |s|
    ensures bus + Text(s[..k + 1]) == bus + Text(s[..k]) + WriteMode(s[k], RS)
  {
    assert s[..k + 1] == s[..k] + [s[k]];
    TextConcat(s[..k], [s[k]]);
    assert Text([s[k]]) == WriteMode(s[k], RS) + Text([]);
    ConcatAssociative(bus, Text(s[..k]), WriteMode(s[k], RS));
  }

  method WriteText(bus: I2cBus, handle: int, buffer: seq<bv8>)
    requires handle >= 0
    modifies bus
    ensures bus.written == old(bus.written) + Text(CString(buffer))
  {
    var text := CString(buffer);
    var len := |text|;
    for charIdx := 0 to len
      invariant bus.written == old(bus.written) + Text(text[..charIdx])
    {
      OneMoreCharacter(old(bus.written), text, charIdx);
      var _ := WriteByMode(bus, handle, buffer[charIdx], RS);
    }
    assert text[..len] == text;
  }

  method AddLineOffset(line: bv8, pos: bv8) returns (posNew: bv8)
    ensures posNew == Position(line, pos)
    ensures posNew as int == (LineOffset(line) + pos as int) % 256
  {
    PositionIsSum(line, pos);
    posNew := pos;
    match line {
      case 1 =>
      case 2 => posNew := posNew + 0x40;
      case 3 => posNew := posNew + 0x14;
      case 4 => posNew := posNew + 0x54;
      case _ =>
    }
  }

  /** The text is a C string: characters up to the first zero byte are shown. */
  method DisplayStringPos(bus: I2cBus, handle: int, buffer: seq<bv8>, line: bv8, pos: bv8) returns (ret: int)
    requires 0 in buffer
    modifies bus
    ensures Wrote(bus, handle, ret, Trace(Print(CString(buffer), line, pos)))
  {
    if 0 > handle { return handle; }
    var posNew := AddLineOffset(line, pos);
    var cmd := SETDDRAMADDR + posNew;
    ret := Write(bus, handle, cmd);
    WriteText(bus, handle, buffer);
    ghost var text := CString(buffer);
    ConcatAssociative(old(bus.written), WriteMode(cmd, 0), Text(text));
    assert Trace(Print(text, line, pos)) == WriteMode(cmd, 0) + Text(text);
    ret := 0;
  }

  method ClearScreen(bus: I2cBus, handle: int) returns (ret: int)
    modifies bus
    ensures Wrote(bus, handle, ret, Trace(Clear))
  {
    if 0 > handle { return handle; }
    ret := Write(bus, handle, CLEARDISPLAY);
    ret := Write(bus, handle, RETURNHOME);
    ConcatAssociative(old(bus.written), WriteMode(CLEARDISPLAY, 0), WriteMode(RETURNHOME, 0));
    ret := 0;
  }

  /** Alone among the operations it reports what became of its byte. */
  method SwitchBacklight(bus: I2cBus, handle: int, state: bool) returns (ret: int)
    modifies bus
    ensures handle < 0 ==> ret < 0 && bus.written == old(bus.written)
    ensures handle >= 0 ==> bus.written == old(bus.written) + [if state then 0x08 else 0x00]
    ensures Trace(Backlight(state)) == [if state then 0x08 else 0x00]
    ensures handle >= 0 ==> (ret == 0 <==> bus.acks(|old(bus.written)|)) && ret <= 0
  {
    ret := bus.WriteByte(handle, if state then BL else 0);
  }
}
