/** The request handler itself: reads the head and the parameters into buffers, dispatches on
    the command and acts through the HAL. */
module CmdsHandler {
  import opened CStrings
  import opened Wire
  import opened Stream
  import opened Cmds
  import opened Hal

  /** Zeroed parameters of the given size, filled from the socket as far as it goes. */
  method ReadReqParams(sock: Socket, size: nat, turns: Schedule, first: nat)
    returns (res: int, params: seq<bv8>, next: nat)
    requires size > 0
    modifies sock`rx
    ensures var p := Receive(old(sock.rx), size, turns, first);
            && sock.rx == p.queue && next == p.next && |params| == size
            && (res == 0 <==> |p.data| == 0 || |p.data| == size)
            && (|p.data| == 0 ==> params == Zeros(size))
            && (|p.data| == size ==> params == p.data)
  {
    var buf := new bv8[size](_ => 0);
    var received;
    received, next := SocketTimeoutRead(sock, buf, size, turns, first);
    params := buf[..];
    assert params == buf[..received] + buf[received..];
    if received == 0 {
      res := 0;
    } else if size != received {
      res := -1;
    } else {
      res := 0;
    }
  }

  /** What the parameters read stand for. */
  lemma ReadParses(addr: bv8, cmd: bv32, p: Receipt, res: int, params: seq<bv8>)
    requires cmd < CMD_COUNT && |params| == ParamSize(cmd) > 0
    requires res == 0 <==> |p.data| == 0 || |p.data| == |params|
    requires |p.data| == 0 ==> params == Zeros(|params|)
    requires |p.data| == |params| ==> params == p.data
    ensures Parsed(addr, cmd, p) == if res == 0 then Executes(FromParams(addr, cmd, params)) else Failed
  {
  }

  /** The request handed to the HAL, if any, does what the HAL says, and a reply reaches a
      client that is still there; anything else has no effect at all. */
  twostate predicate Acted(hal: Hal, pad: Pad, beyond: Beyond, sock: Socket, buttons: Buttons, outcome: Outcome)
    reads hal, hal.bus, sock
  {
    match outcome
    case Executes(r) =>
      && hal.Did(pad, r, beyond)
      && sock.tx == old(sock.tx) + (if sock.peerGone then [] else ReplyBytes(buttons, r))
      && sock.signalled == (old(sock.signalled) || (sock.peerGone && ReplyBytes(buttons, r) != []))
    case _ =>
      && hal.sent == old(hal.sent) && hal.bus.written == old(hal.bus.written)
      && sock.tx == old(sock.tx) && sock.signalled == old(sock.signalled)
  }

  /** The result code of a call with the given outcome. */
  twostate predicate Returns(hal: Hal, sock: Socket, buttons: Buttons, outcome: Outcome, res: int)
    reads hal, hal.bus, sock
  {
    match outcome
    case Idle => res == 0
    case Failed => res == -1
    case Executes(r) =>
      match r
      case GetBtnStateReq(addr, idx) => res == if ButtonAnswer(buttons, addr, idx).Some? && !sock.peerGone then 0 else -1
      case BacklightReq(addr, _) => hal.BacklightReturns(addr, res)
      case _ => hal.Returns(r.addr, res)
  }

  /** What a call does, line by line: on the device bytes on the bus, on the host a packet,
      on either a reply to a client that is there. */
  twostate lemma ActedIff(hal: Hal, pad: Pad, beyond: Beyond, sock: Socket, buttons: Buttons, outcome: Outcome)
    ensures Acted(hal, pad, beyond, sock, buttons, outcome) <==>
      && hal.bus.written == old(hal.bus.written) +
           (if outcome.Executes? && hal.side.Rpi? && hal.handle >= 0 then BusOutput(outcome.r, beyond) else [])
      && hal.sent == old(hal.sent) +
           (if outcome.Executes? && hal.side.X86? then Packets(hal.attached - hal.failing, pad, outcome.r) else [])
      && sock.tx == old(sock.tx) +
           (if outcome.Executes? && !sock.peerGone then ReplyBytes(buttons, outcome.r) else [])
      && sock.signalled == (old(sock.signalled) ||
           (outcome.Executes? && sock.peerGone && ReplyBytes(buttons, outcome.r) != []))
  {
    assert old(hal.bus.written) + [] == old(hal.bus.written) && old(hal.sent) + [] == old(hal.sent);
    assert old(sock.tx) + [] == old(sock.tx);
  }

  /** What a call returns: 0 for no request and for success, -1 for a request that cannot be read,
      is unknown or gets no answer, the handle itself if the display was not opened, and for a
      backlight call on the display what its one write returns. */
  twostate lemma ReturnsIff(hal: Hal, sock: Socket, buttons: Buttons, outcome: Outcome, res: int)
    ensures Returns(hal, sock, buttons, outcome, res) <==>
      && (outcome.Idle? ==> res == 0)
      && (outcome.Failed? ==> res == -1)
      && (outcome.Executes? && outcome.r.GetBtnStateReq? ==>
            var r := outcome.r;
            res == if r.idx < 3 && buttons(r.addr, r.idx).Some? && !sock.peerGone then 0 else -1)
      && (outcome.Executes? && !outcome.r.GetBtnStateReq? && hal.side.X86? ==>
            res == if outcome.r.addr in hal.attached && outcome.r.addr !in hal.failing then 0 else -1)
      && (outcome.Executes? && (outcome.r.PrintReq? || outcome.r.ClearReq?) && hal.side.Rpi? ==>
            res == if hal.handle < 0 then hal.handle else 0)
      && (outcome.Executes? && outcome.r.BacklightReq? && hal.side.Rpi? ==>
            res <= 0 && (res == 0 <==> hal.handle >= 0 && hal.bus.acks(|old(hal.bus.written)|)))
  {
  }

  method HandleRequest(sock: Socket, hal: Hal, buttons: Buttons, pad: Pad, beyond: Beyond, turns: Schedule, first: nat)
    returns (res: int, next: nat)
    modifies sock`rx, sock`tx, sock`signalled, hal`sent, hal.bus
    ensures var h := Handle(old(sock.rx), turns, first);
            && sock.rx == h.queue && next == h.next
            && Acted(hal, pad, beyond, sock, buttons, h.outcome)
            && Returns(hal, sock, buttons, h.outcome, res)
  {
    ghost var q := sock.rx;
    ghost var r := Receive(q, HEAD_SIZE, turns, first);
    var buf := new bv8[HEAD_SIZE](_ => 0);
    var size;
    size, next := SocketTimeoutRead(sock, buf, HEAD_SIZE, turns, first);
    if size == 0 { return 0, next; }
    if size != HEAD_SIZE { return -1, next; }
    var head := buf[..];
    assert head == buf[..size] == r.data;
    res, next := Dispatch(sock, hal, head[0], HeadCommand(head), buttons, pad, beyond, turns, next);
  }

  /** The switch on the command. */
  method Dispatch(sock: Socket, hal: Hal, addr: bv8, cmd: bv32,
                  buttons: Buttons, pad: Pad, beyond: Beyond, turns: Schedule, first: nat)
    returns (res: int, next: nat)
    modifies sock`rx, sock`tx, sock`signalled, hal`sent, hal.bus
    ensures var d := Dispatched(addr, cmd, old(sock.rx), turns, first);
            && sock.rx == d.queue && next == d.next
            && Acted(hal, pad, beyond, sock, buttons, d.outcome)
            && Returns(hal, sock, buttons, d.outcome, res)
  {
    next := first;
    if cmd == CMD_PRINT {
      res, next := HandlePrint(sock, hal, addr, buttons, turns, first, pad, beyond);
    } else if cmd == CMD_CLEAR {
      res := hal.LcdClear(addr, pad, beyond);
    } else if cmd == CMD_BACKLIGHT {
      res, next := HandleBacklight(sock, hal, addr, buttons, turns, first, pad, beyond);
    } else if cmd == CMD_GET_BTN_STATE {
      res, next := HandleGetBtnState(sock, hal, addr, buttons, turns, first, pad, beyond);
    } else {
      res := -1;
    }
  }

  method HandlePrint(sock: Socket, hal: Hal, addr: bv8,
                     ghost buttons: Buttons, turns: Schedule, first: nat, ghost pad: Pad, beyond: Beyond)
    returns (res: int, next: nat)
    modifies sock`rx, hal`sent, hal.bus
    ensures var p := Receive(old(sock.rx), ParamSize(CMD_PRINT), turns, first);
            && sock.rx == p.queue && next == p.next
            && Acted(hal, pad, beyond, sock, buttons, Parsed(addr, CMD_PRINT, p))
            && Returns(hal, sock, buttons, Parsed(addr, CMD_PRINT, p), res)
  {
    var params;
    res, params, next := ReadReqParams(sock, ParamSize(CMD_PRINT), turns, first);
    ReadParses(addr, CMD_PRINT, Receive(old(sock.rx), ParamSize(CMD_PRINT), turns, first), res, params);
    if res != 0 { return -1, next; }
    res := hal.LcdDisplayStringPos(addr, params[..17], params[17], params[18], beyond, pad);
  }

  method HandleBacklight(sock: Socket, hal: Hal, addr: bv8,
                         ghost buttons: Buttons, turns: Schedule, first: nat, pad: Pad, ghost beyond: Beyond)
    returns (res: int, next: nat)
    modifies sock`rx, hal`sent, hal.bus
    ensures var p := Receive(old(sock.rx), ParamSize(CMD_BACKLIGHT), turns, first);
            && sock.rx == p.queue && next == p.next
            && Acted(hal, pad, beyond, sock, buttons, Parsed(addr, CMD_BACKLIGHT, p))
            && Returns(hal, sock, buttons, Parsed(addr, CMD_BACKLIGHT, p), res)
  {
    var params;
    res, params, next := ReadReqParams(sock, ParamSize(CMD_BACKLIGHT), turns, first);
    ReadParses(addr, CMD_BACKLIGHT, Receive(old(sock.rx), ParamSize(CMD_BACKLIGHT), turns, first), res, params);
    if res != 0 { return -1, next; }
    res := hal.LcdBacklight(addr, params[0], pad, beyond);
  }

  /** A failed read of the button writes no reply, and a client that has gone gets none. */
  method Reply(sock: Socket, hal: Hal, addr: bv8, idx: bv32, buttons: Buttons) returns (res: int)
    modifies sock`tx, sock`signalled
    ensures var bytes := ReplyBytes(buttons, GetBtnStateReq(addr, idx));
            && res == (if bytes != [] && !sock.peerGone then 0 else -1)
            && sock.tx == old(sock.tx) + (if sock.peerGone then [] else bytes)
            && sock.signalled == (old(sock.signalled) || (sock.peerGone && bytes != []))
  {
    var state;
    res, state := hal.BtnGetState(buttons, addr, idx);
    if res != 0 { return res; }
    res := sock.Write(Le32(state));
    if 0 > res { return res; }
    res := 0;
  }

  lemma ReplyIffAnswer(buttons: Buttons, addr: bv8, idx: bv32)
    ensures ReplyBytes(buttons, GetBtnStateReq(addr, idx)) != [] <==> ButtonAnswer(buttons, addr, idx).Some?
  {
  }

  method HandleGetBtnState(sock: Socket, hal: Hal, addr: bv8,
                           buttons: Buttons, turns: Schedule, first: nat, ghost pad: Pad, ghost beyond: Beyond)
    returns (res: int, next: nat)
    modifies sock`rx, sock`tx, sock`signalled
    ensures var p := Receive(old(sock.rx), ParamSize(CMD_GET_BTN_STATE), turns, first);
            && sock.rx == p.queue && next == p.next
            && Acted(hal, pad, beyond, sock, buttons, Parsed(addr, CMD_GET_BTN_STATE, p))
            && Returns(hal, sock, buttons, Parsed(addr, CMD_GET_BTN_STATE, p), res)
  {
    var params;
    res, params, next := ReadReqParams(sock, ParamSize(CMD_GET_BTN_STATE), turns, first);
    ReadParses(addr, CMD_GET_BTN_STATE, Receive(old(sock.rx), ParamSize(CMD_GET_BTN_STATE), turns, first), res, params);
    if res != 0 { return -1, next; }
    var idx := FromLe32(params);
    ReplyIffAnswer(buttons, addr, idx);
    res := Reply(sock, hal, addr, idx, buttons);
  }
}
