/** Requests on the wire: an 8-byte head (address, three bytes of padding, a 32-bit
    little-endian command) and 19, 0, 1 or 4 bytes of parameters. */
module Wire {

  const STRING_SIZE: nat := 17  // including the terminator
  const HEAD_SIZE: nat := 8

  const CMD_PRINT: bv32 := 0
  const CMD_CLEAR: bv32 := 1
  const CMD_BACKLIGHT: bv32 := 2
  const CMD_GET_BTN_STATE: bv32 := 3
  const CMD_COUNT: bv32 := 4

  const BTN_RELEASED: bv32 := 0
  const BTN_PRESSED: bv32 := 1
  const BTN_STATE_INVALID: bv32 := 2

  const BTN_COUNT: bv32 := 3

  type Pad = p: seq<bv8> | |p| == 3 witness [0, 0, 0]
  type Str = s: seq<bv8> | |s| == STRING_SIZE witness seq(STRING_SIZE, _ => 0)

  datatype Request =
    | PrintReq(addr: bv8, str: Str, line: bv8, pos: bv8)
    | ClearReq(addr: bv8)
    | BacklightReq(addr: bv8, enable: bv8)
    | GetBtnStateReq(addr: bv8, idx: bv32)

  /** A request together with the padding its head happens to carry. */
  datatype Frame = Frame(pad: Pad, req: Request)

  function Le32(v: bv32): (b: seq<bv8>)
    ensures |b| == 4
  {
    [(v & 0xFF) as bv8, ((v >> 8) & 0xFF) as bv8, ((v >> 16) & 0xFF) as bv8, (v >> 24) as bv8]
  }

  function FromLe32(b: seq<bv8>): bv32
    requires |b| == 4
  {
    (b[0] as bv32) | ((b[1] as bv32) << 8) | ((b[2] as bv32) << 16) | ((b[3] as bv32) << 24)
  }

  lemma Le32RoundTrip(v: bv32)
    ensures FromLe32(Le32(v)) == v
  {
  }

  lemma Le32Onto(b: seq<bv8>)
    requires |b| == 4
    ensures Le32(FromLe32(b)) == b
  {
  }

  function Command(r: Request): bv32 {
    match r
    case PrintReq(_, _, _, _) => CMD_PRINT
    case ClearReq(_) => CMD_CLEAR
    case BacklightReq(_, _) => CMD_BACKLIGHT
    case GetBtnStateReq(_, _) => CMD_GET_BTN_STATE
  }

  /** sizeof the parameter struct that follows a valid command. */
  function ParamSize(cmd: bv32): nat
    requires cmd < CMD_COUNT
  {
    if cmd == CMD_PRINT then STRING_SIZE + 2
    else if cmd == CMD_CLEAR then 0
    else if cmd == CMD_BACKLIGHT then 1
    else 4
  }

  function Head(addr: bv8, pad: Pad, cmd: bv32): (b: seq<bv8>)
    ensures |b| == HEAD_SIZE
  {
    [addr] + pad + Le32(cmd)
  }

  function Params(r: Request): (b: seq<bv8>)
    ensures |b| == ParamSize(Command(r))
  {
    match r
    case PrintReq(_, str, line, pos) => str + [line, pos]
    case ClearReq(_) => []
    case BacklightReq(_, enable) => [enable]
    case GetBtnStateReq(_, idx) => Le32(idx)
  }

  function Encode(f: Frame): (b: seq<bv8>)
    ensures |b| == HEAD_SIZE + ParamSize(Command(f.req))
  {
    Head(f.req.addr, f.pad, Command(f.req)) + Params(f.req)
  }

  function EncodeAll(fs: seq<Frame>): seq<bv8> {
    if fs == [] then [] else Encode(fs[0]) + EncodeAll(fs[1..])
  }

  function Requests(fs: seq<Frame>): (rs: seq<Request>)
    ensures |rs| == |fs| && forall i :: 0 <= i < |fs| ==> rs[i] == fs[i].req
  {
    seq(|fs|, i requires 0 <= i < |fs| => fs[i].req)
  }

  /** The command and address fields of a head; the padding is not looked at. */
  function HeadCommand(b: seq<bv8>): bv32
    requires |b| == HEAD_SIZE
  {
    FromLe32(b[4..8])
  }

  /** The request a parameter struct stands for. */
  function FromParams(addr: bv8, cmd: bv32, b: seq<bv8>): (r: Request)
    requires cmd < CMD_COUNT && |b| == ParamSize(cmd)
    ensures Command(r) == cmd && r.addr == addr && Params(r) == b
  {
    if cmd == CMD_PRINT then
      assert b == b[..17] + [b[17], b[18]];
      PrintReq(addr, b[..17], b[17], b[18])
    else if cmd == CMD_CLEAR then ClearReq(addr)
    else if cmd == CMD_BACKLIGHT then
      assert b == [b[0]];
      BacklightReq(addr, b[0])
    else
      Le32Onto(b);
      GetBtnStateReq(addr, FromLe32(b))
  }

  lemma HeadRoundTrip(addr: bv8, pad: Pad, cmd: bv32)
    ensures Head(addr, pad, cmd)[0] == addr && HeadCommand(Head(addr, pad, cmd)) == cmd
  {
    assert Head(addr, pad, cmd)[4..8] == Le32(cmd);
    Le32RoundTrip(cmd);
  }

  lemma ParamsRoundTrip(r: Request)
    ensures FromParams(r.addr, Command(r), Params(r)) == r
  {
    match r
    case PrintReq(_, str, line, pos) => assert Params(r)[..17] == str;
    case ClearReq(_) =>
    case BacklightReq(_, _) =>
    case GetBtnStateReq(_, idx) => Le32RoundTrip(idx);
  }

  lemma {:induction false} EncodeAllConcat(a: seq<Frame>, b: seq<Frame>)
    ensures EncodeAll(a + b) == EncodeAll(a) + EncodeAll(b)
  {
    if a == [] {
      assert a + b == b;
    } else {
      assert (a + b)[1..] == a[1..] + b;
      EncodeAllConcat(a[1..], b);
    }
  }

  lemma EncodeOne(f: Frame)
    ensures EncodeAll([f]) == Encode(f)
  {
    assert [f][1..] == [];
    assert EncodeAll([f]) == Encode(f) + EncodeAll([]);
  }

  // ------------------------------------------------------ bytes in numbers

  /** A 32-bit number takes four bytes, the lowest first. */
  lemma Le32Digits(v: bv32)
    ensures var b := Le32(v);
            v == b[0] as bv32 + 0x100 * (b[1] as bv32) + 0x10000 * (b[2] as bv32) + 0x1000000 * (b[3] as bv32)
  {
  }

  lemma FromDigits(a: bv8, b: bv8, c: bv8, d: bv8)
    ensures FromLe32([a, b, c, d]) ==
            a as bv32 + 0x100 * (b as bv32) + 0x10000 * (c as bv32) + 0x1000000 * (d as bv32)
  {
  }

  lemma HeadDigits(b: seq<bv8>, a4: bv8, a5: bv8, a6: bv8, a7: bv8)
    requires |b| == HEAD_SIZE && b[4] == a4 && b[5] == a5 && b[6] == a6 && b[7] == a7
    ensures HeadCommand(b) == a4 as bv32 + 0x100 * (a5 as bv32) + 0x10000 * (a6 as bv32) + 0x1000000 * (a7 as bv32)
  {
    assert b[4..8] == [a4, a5, a6, a7];
    FromDigits(a4, a5, a6, a7);
  }

  lemma Le32Small(v: bv32)
    requires v < 256
    ensures Le32(v) == [v as bv8, 0, 0, 0]
  {
  }

  /** Where everything stands in a request: the address in byte 0, whatever padding in bytes
      1 to 3, the command number in byte 4 with zeros after it, the parameters from byte 8. */
  lemma Layout(f: Frame)
    ensures var b := Encode(f);
            && b[0] == f.req.addr && b[1..4] == f.pad && b[5] == b[6] == b[7] == 0
            && (f.req.PrintReq? ==>
                  && |b| == 27 && b[4] == 0
                  && b[8..25] == f.req.str && b[25] == f.req.line && b[26] == f.req.pos)
            && (f.req.ClearReq? ==> |b| == 8 && b[4] == 1)
            && (f.req.BacklightReq? ==> |b| == 9 && b[4] == 2 && b[8] == f.req.enable)
            && (f.req.GetBtnStateReq? ==> |b| == 12 && b[4] == 3 && b[8..12] == Le32(f.req.idx))
  {
    Le32Small(Command(f.req));
  }
}
