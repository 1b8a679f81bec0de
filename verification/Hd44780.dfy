/** The display controller behind the I2C port expander: a Hitachi HD44780U wired in
    4-bit mode. The machine here is the reference the driver is proved against; it is
    taken from the HD44780U datasheet (Table 6 "Instructions" and the DDRAM address maps)
    and owes nothing to the driver. */
module Hd44780 {
  import opened Wrappers

  /** Port-expander outputs: D7..D4 are bits 7..4, then backlight, EN, RW and RS. */
  const BL: bv8 := 0x08
  const EN: bv8 := 0x04
  const RW: bv8 := 0x02
  const RS: bv8 := 0x01

  const BLANK: bv8 := 0x20

  type Ram = r: seq<bv8> | |r| == 80 witness seq(80, _ => BLANK)
  type Cgram = r: seq<bv8> | |r| == 64 witness seq(64, _ => BLANK)
  function BlankRam(): (r: Ram)
    ensures forall i :: 0 <= i < 80 ==> r[i] == 0x20
  {
    seq(80, _ => BLANK)
  }

  type Address = a: int | 0 <= a < 128
  type Offset = a: int | 0 <= a < 40

  /** What the hardware leaves open at a latch: the undriven lines D3..D0 (seen only in
      8-bit mode), whether the lines are sampled before or after the write that lowers EN,
      and which of two disagreeing half-bytes supplies RS and RW. */
  datatype Noise = Noise(low: bv8, late: bool, first: bool)

  datatype Half = Half(nibble: bv8, rs: bool, rw: bool)

  datatype Area = Ddram | Cgram

  datatype Chip = Chip(
    wide: bool,               // 8-bit interface
    pending: Option<Half>,    // first half of a byte, 4-bit interface only
    twoLine: bool,
    bigFont: bool,
    displayOn: bool,
    cursorOn: bool,
    blinkOn: bool,
    increment: bool,
    shiftOnWrite: bool,
    shift: Offset,            // display shift: positions to the left
    ddram: Ram,
    cgram: Cgram,
    area: Area,
    ac: Address)

  datatype Instruction =
    | Nop
    | ClearDisplay
    | ReturnHome
    | EntryMode(increment: bool, shiftOnWrite: bool)
    | DisplayControl(on: bool, cursor: bool, blink: bool)
    | MoveCursor(right: bool)
    | ShiftDisplay(right: bool)
    | FunctionSet(wide: bool, twoLine: bool, bigFont: bool)
    | SetCgram(address: Address)
    | SetDdram(address: Address)

  function Decode(b: bv8): Instruction {
    if b & 0x80 != 0 then SetDdram((b & 0x7F) as int)
    else if b & 0x40 != 0 then SetCgram((b & 0x3F) as int)
    else if b & 0x20 != 0 then FunctionSet(b & 0x10 != 0, b & 0x08 != 0, b & 0x04 != 0)
    else if b & 0x10 != 0 then if b & 0x08 != 0 then ShiftDisplay(b & 0x04 != 0) else MoveCursor(b & 0x04 != 0)
    else if b & 0x08 != 0 then DisplayControl(b & 0x04 != 0, b & 0x02 != 0, b & 0x01 != 0)
    else if b & 0x04 != 0 then EntryMode(b & 0x02 != 0, b & 0x01 != 0)
    else if b & 0x02 != 0 then ReturnHome
    else if b & 0x01 != 0 then ClearDisplay
    else Nop
  }

  /** Addresses that have a DDRAM cell: 0x00..0x4F on one line, 0x00..0x27 and 0x40..0x67
      on two. */
  predicate HasCell(twoLine: bool, a: Address) {
    if twoLine then a < 0x28 || 0x40 <= a < 0x68 else a < 0x50
  }

  /** The place of an address on the ring of 80 cells. */
  function Slot(twoLine: bool, a: Address): (s: nat)
    requires HasCell(twoLine, a)
    ensures s < 80
  {
    if twoLine && a >= 0x40 then a - 0x18 else a
  }

  /** One step round a ring of n places. */
  function Up(a: nat, n: nat): (r: nat)
    requires a < n
    ensures r < n
  {
    if a == n - 1 then 0 else a + 1
  }

  function Down(a: nat, n: nat): (r: nat)
    requires a < n
    ensures r < n
  {
    if a == 0 then n - 1 else a - 1
  }

  function CgramSlot(a: Address): (s: nat)
    ensures s < 64
  {
    if a < 64 then a else a - 64
  }

  function NextAddress(twoLine: bool, a: Address): Address {
    if twoLine && a == 0x27 then 0x40
    else if twoLine && a == 0x67 then 0x00
    else if !twoLine && a == 0x4F then 0x00
    else Up(a, 128)
  }

  function PreviousAddress(twoLine: bool, a: Address): Address {
    if twoLine && a == 0x40 then 0x27
    else if twoLine && a == 0x00 then 0x67
    else if !twoLine && a == 0x00 then 0x4F
    else Down(a, 128)
  }

  function MoveAc(up: bool, c: Chip): (r: Chip)
    ensures r == c.(ac := r.ac)
  {
    match c.area
    case Ddram => c.(ac := if up then NextAddress(c.twoLine, c.ac) else PreviousAddress(c.twoLine, c.ac))
    case Cgram => c.(ac := if up then Up(CgramSlot(c.ac), 64) else Down(CgramSlot(c.ac), 64))
  }

  function MoveDisplay(left: bool, c: Chip): (r: Chip)
    ensures r == c.(shift := r.shift)
  {
    c.(shift := if left then Up(c.shift, 40) else Down(c.shift, 40))
  }

  function Execute(i: Instruction, c: Chip): Chip {
    match i
    case Nop => c
    case ClearDisplay =>
      c.(ddram := BlankRam(), area := Ddram, ac := 0, shift := 0, increment := true)
    case ReturnHome => c.(area := Ddram, ac := 0, shift := 0)
    case EntryMode(inc, s) => c.(increment := inc, shiftOnWrite := s)
    case DisplayControl(on, cursor, blink) => c.(displayOn := on, cursorOn := cursor, blinkOn := blink)
    case MoveCursor(right) => MoveAc(right, c)
    case ShiftDisplay(right) => MoveDisplay(!right, c)
    case FunctionSet(wide, twoLine, bigFont) =>
      c.(wide := wide, pending := None, twoLine := twoLine, bigFont := bigFont)
    case SetCgram(a) => c.(area := Cgram, ac := a)
    case SetDdram(a) => c.(area := Ddram, ac := a)
  }

  /** An address without a cell stores nothing; the datasheet leaves that case open. */
  function Store(b: bv8, c: Chip): (r: Chip)
    ensures r == c.(ddram := r.ddram, cgram := r.cgram)
  {
    match c.area
    case Ddram => if HasCell(c.twoLine, c.ac) then c.(ddram := c.ddram[Slot(c.twoLine, c.ac) := b]) else c
    case Cgram => c.(cgram := c.cgram[CgramSlot(c.ac) := b])
  }

  function WriteData(b: bv8, c: Chip): (r: Chip)
    ensures r.wide == c.wide && r.pending == c.pending && r.twoLine == c.twoLine && r.bigFont == c.bigFont
    ensures r.displayOn == c.displayOn && r.cursorOn == c.cursorOn && r.blinkOn == c.blinkOn
    ensures r.increment == c.increment && r.shiftOnWrite == c.shiftOnWrite
    ensures !c.shiftOnWrite ==> r.shift == c.shift
  {
    var moved := MoveAc(c.increment, Store(b, c));
    if c.shiftOnWrite && c.area == Ddram then MoveDisplay(c.increment, moved) else moved
  }

  /** A whole byte has been transferred. A read changes nothing but the address counter. */
  function Complete(b: bv8, rs: bool, rw: bool, c: Chip): Chip {
    if rw then (if rs then MoveAc(c.increment, c) else c)
    else if rs then WriteData(b, c)
    else Execute(Decode(b), c)
  }

  /** One falling edge of EN with the given values on D7..D4, RS and RW. */
  function Clock(nibble: bv8, rs: bool, rw: bool, noise: Noise, c: Chip): Chip {
    if c.wide then
      Complete((nibble << 4) | (noise.low & 0x0F), rs, rw, c)
    else
      match c.pending
      case None => c.(pending := Some(Half(nibble, rs, rw)))
      case Some(h) =>
        Complete((h.nibble << 4) | (nibble & 0x0F),
                 if noise.first then h.rs else rs,
                 if noise.first then h.rw else rw,
                 c.(pending := None))
  }

  function Latch(lines: bv8, noise: Noise, c: Chip): Chip {
    Clock(lines >> 4, lines & RS != 0, lines & RW != 0, noise, c)
  }

  /** The expander outputs together with the controller they drive. */
  datatype Machine = Machine(lines: bv8, chip: Chip)

  function Step(b: bv8, noise: Noise, m: Machine): Machine {
    if m.lines & EN != 0 && b & EN == 0 then
      Machine(b, Latch(if noise.late then b else m.lines, noise, m.chip))
    else
      Machine(b, m.chip)
  }

  /** Feed a byte trace to the machine; write number t resolves its open choices by noise(t). */
  function Run(trace: seq<bv8>, noise: nat -> Noise, t: nat, m: Machine): Machine
    decreases |trace|
  {
    if trace == [] then m else Run(trace[1..], noise, t + 1, Step(trace[0], noise(t), m))
  }

  lemma {:induction false} RunConcat(a: seq<bv8>, b: seq<bv8>, noise: nat -> Noise, t: nat, m: Machine)
    ensures Run(a + b, noise, t, m) == Run(b, noise, t + |a|, Run(a, noise, t, m))
    decreases |a|
  {
    if a == [] {
      assert a + b == b;
    } else {
      assert (a + b)[1..] == a[1..] + b;
      RunConcat(a[1..], b, noise, t + 1, Step(a[0], noise(t), m));
    }
  }
}
