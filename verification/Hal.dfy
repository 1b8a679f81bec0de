/** The two hardware abstraction layers: the device side drives the display, the host side
    passes requests on over USB. */
module Hal {
  import opened Wrappers
  import opened CStrings
  import opened Wire
  import opened Relay
  import LcdDriver

  datatype Side = Rpi | X86

  /** One write to /dev/mmlcd<addr>. */
  datatype Packet = Packet(addr: bv8, bytes: seq<bv8>)

  /** Memory after a print's parameters. An unterminated text is read on into it, as far as
      its first zero byte. */
  type Beyond = b: seq<bv8> | 0 in b witness [0]

  /** The C string that starts at the text field. */
  function ShownText(str: Str, line: bv8, pos: bv8, beyond: Beyond): (text: seq<bv8>)
    ensures 0 in str ==> text == CString(str)
  {
    ReadOn(str, [line, pos] + beyond);
    CString(str + ([line, pos] + beyond))
  }

  lemma {:induction false} ReadOn(s: seq<bv8>, more: seq<bv8>)
    ensures 0 in s ==> CString(s + more) == CString(s)
    decreases |s|
  {
    if s != [] && s[0] != 0 {
      assert (s + more)[1..] == s[1..] + more;
      ReadOn(s[1..], more);
    }
  }

  /** The display calls a request stands for on the device. */
  function DisplayCalls(r: Request, beyond: Beyond): seq<LcdDriver.Call> {
    match r
    case PrintReq(_, str, line, pos) => [LcdDriver.Print(ShownText(str, line, pos, beyond), line, pos)]
    case ClearReq(_) => [LcdDriver.Clear]
    case BacklightReq(_, enable) => [LcdDriver.Backlight(enable != 0)]
    case GetBtnStateReq(_, _) => []
  }

  /** What they put on the bus. */
  function BusOutput(r: Request, beyond: Beyond): seq<bv8> {
    LcdDriver.Traces(DisplayCalls(r, beyond))
  }

  /** The padding of a re-encoded head: a print starts from a zeroed struct, the others
      leave the padding to the compiler. */
  function PadOf(r: Request, pad: Pad): Pad {
    if r.PrintReq? then [0, 0, 0] else pad
  }

  function Packets(attached: set<bv8>, pad: Pad, r: Request): seq<Packet> {
    if r.GetBtnStateReq? || r.addr !in attached then []
    else [Packet(r.addr, Encode(Frame(PadOf(r, pad), Reencode(r))))]
  }

  /** What the world answers to a button read: a state, or a failure. */
  type Buttons = (bv8, bv32) -> Option<bv32>

  /** Both sides refuse an index past the last button before they look. */
  function ButtonAnswer(buttons: Buttons, addr: bv8, idx: bv32): Option<bv32> {
    if idx >= BTN_COUNT then None else buttons(addr, idx)
  }

  function ReplyBytes(buttons: Buttons, r: Request): seq<bv8> {
    match r
    case GetBtnStateReq(addr, idx) =>
      (match ButtonAnswer(buttons, addr, idx)
       case Some(state) => Le32(state)
       case None => [])
    case _ => []
  }

  /** A request struct built field by field in a zeroed buffer. */
  method BuildPrint(addr: bv8, src: seq<bv8>, line: bv8, pos: bv8) returns (req: array<bv8>)
    requires 0 in src || 16 <= |src|
    ensures fresh(req) && req[..] == Encode(Frame([0, 0, 0], PrintReq(addr, FitString(src), line, pos)))
  {
    var str := new bv8[STRING_SIZE](_ => 0);
    StrncpyInto(str, src, STRING_SIZE - 1);
    assert str[..] == str[..16] + str[16..] && str[16..] == [0];
    var bytes := Head(addr, [0, 0, 0], CMD_PRINT) + (str[..] + [line, pos]);
    req := new bv8[|bytes|](i requires 0 <= i < |bytes| => bytes[i]);
    assert req[..] == bytes;
  }

  method BuildSimple(pad: Pad, r: Request) returns (req: array<bv8>)
    requires !r.PrintReq?
    ensures fresh(req) && req[..] == Encode(Frame(pad, r))
  {
    var params := match r
      case BacklightReq(_, enable) => [enable]
      case GetBtnStateReq(_, idx) => Le32(idx)
      case _ => [];
    var bytes := Head(r.addr, pad, Command(r)) + params;
    req := new bv8[|bytes|](i requires 0 <= i < |bytes| => bytes[i]);
    assert req[..] == bytes;
  }

  class Hal {
    const side: Side
    const bus: LcdDriver.I2cBus
    const handle: int          // of the opened I2C device, negative if that failed
    var attached: set<bv8>     // minor numbers with a device file
    var failing: set<bv8>      // those among them whose writes fail
    var sent: seq<Packet>

    constructor (side: Side, bus: LcdDriver.I2cBus, handle: int, attached: set<bv8>, failing: set<bv8>)
      ensures this.side == side && this.bus == bus && this.handle == handle
      ensures this.attached == attached && this.failing == failing && sent == []
    {
      this.side, this.bus, this.handle, this.attached, this.failing := side, bus, handle, attached, failing;
      sent := [];
    }

    /** The devices a packet gets to. */
    function Reachable(): set<bv8>
      reads this
    {
      attached - failing
    }

    method OpenAndWrite(addr: bv8, req: array<bv8>) returns (res: int)
      requires side.X86?
      modifies this`sent
      ensures res == (if addr in Reachable() then 0 else -1)
      ensures sent == old(sent) + if addr in Reachable() then [Packet(addr, req[..])] else []
    {
      if addr !in attached { return -1; }
      if addr in failing { return -1; }
      sent := sent + [Packet(addr, req[..])];
      res := 0;
    }

    /** What one executed request does to the outside. */
    twostate predicate Did(pad: Pad, r: Request, beyond: Beyond)
      reads this, bus
    {
      && bus.written == old(bus.written) + (if side.Rpi? && handle >= 0 then BusOutput(r, beyond) else [])
      && sent == old(sent) + (if side.X86? then Packets(Reachable(), pad, r) else [])
    }

    /** The result code of a print or clear: on the device it tells whether the I2C device was
        opened, not what became of the bytes; on the host whether the packet was written. */
    predicate Returns(addr: bv8, res: int)
      reads this
    {
      match side
      case Rpi => res == if handle < 0 then handle else 0
      case X86 => res == if addr in Reachable() then 0 else -1
    }

    /** That of a backlight call is on the device the result of its one I2C write. */
    twostate predicate BacklightReturns(addr: bv8, res: int)
      reads this, bus
    {
      match side
      case Rpi => res <= 0 && (res == 0 <==> handle >= 0 && bus.acks(|old(bus.written)|))
      case X86 => Returns(addr, res)
    }

    method LcdDisplayStringPos(addr: bv8, str: Str, line: bv8, pos: bv8, beyond: Beyond, ghost pad: Pad)
      returns (res: int)
      modifies this`sent, bus
      ensures Did(pad, PrintReq(addr, str, line, pos), beyond)
      ensures Returns(addr, res)
    {
      match side
      case Rpi =>
        LcdDriver.TracesOfOne(LcdDriver.Print(ShownText(str, line, pos, beyond), line, pos));
        res := LcdDriver.DisplayStringPos(bus, handle, str + ([line, pos] + beyond), line, pos);
      case X86 =>
        var req := BuildPrint(addr, str, line, pos);
        res := OpenAndWrite(addr, req);
    }

    method LcdClear(addr: bv8, pad: Pad, ghost beyond: Beyond) returns (res: int)
      modifies this`sent, bus
      ensures Did(pad, ClearReq(addr), beyond)
      ensures Returns(addr, res)
    {
      match side
      case Rpi =>
        LcdDriver.TracesOfOne(LcdDriver.Clear);
        res := LcdDriver.ClearScreen(bus, handle);
      case X86 =>
        var req := BuildSimple(pad, ClearReq(addr));
        res := OpenAndWrite(addr, req);
    }

    /** The parameter is a C bool: any non-zero byte is true. */
    method LcdBacklight(addr: bv8, enable: bv8, pad: Pad, ghost beyond: Beyond) returns (res: int)
      modifies this`sent, bus
      ensures Did(pad, BacklightReq(addr, enable), beyond)
      ensures BacklightReturns(addr, res)
    {
      var state := enable != 0;
      match side
      case Rpi =>
        LcdDriver.TracesOfOne(LcdDriver.Backlight(state));
        res := LcdDriver.SwitchBacklight(bus, handle, state);
      case X86 =>
        var req := BuildSimple(pad, BacklightReq(addr, Flag(state)));
        res := OpenAndWrite(addr, req);
    }

    method BtnGetState(buttons: Buttons, addr: bv8, idx: bv32) returns (res: int, state: bv32)
      ensures res == if ButtonAnswer(buttons, addr, idx).Some? then 0 else -1
      ensures res == 0 ==> ButtonAnswer(buttons, addr, idx) == Some(state)
    {
      state := BTN_STATE_INVALID;
      if BTN_COUNT <= idx { return -1, state; }
      match buttons(addr, idx)
      case None => res := -1;
      case Some(s) => res, state := 0, s;
    }
  }
}
