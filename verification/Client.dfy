/** The client library: requests written to the daemon's socket. */
module Client {
  import opened CStrings
  import opened Wire
  import opened Relay
  import opened Stream
  import opened Hal

  /** A call of the client library. The string is a C string in a buffer. */
  datatype HostCall =
    | Print(text: seq<bv8>, line: bv8, pos: bv8)
    | Clear
    | Backlight(on: bool)

  /** The request the library encodes for it. */
  function ClientRequest(addr: bv8, call: HostCall): Request {
    match call
    case Print(text, line, pos) => PrintReq(addr, FitString(text), line, pos)
    case Clear => ClearReq(addr)
    case Backlight(on) => BacklightReq(addr, Flag(on))
  }

  /** The state of the library: the address put into every request, and the connection. */
  class Connection {
    var addr: bv8
    const sock: Socket

    constructor (sock: Socket)
      ensures this.sock == sock && addr == 0
    {
      this.sock := sock;
      addr := 0;
    }

    method SetAddr(addr: bv8)
      modifies this
      ensures this.addr == addr
    {
      this.addr := addr;
    }

    /** One write(2) of a whole request; it fails or takes everything. */
    method Write(req: array<bv8>, works: bool) returns (res: int)
      modifies sock`rx
      ensures res == if works then 0 else -1
      ensures sock.rx == old(sock.rx) + if works then req[..] else []
    {
      if !works { return -1; }
      sock.rx := sock.rx + req[..];
      res := 0;
    }

    method DisplayStringPos(text: seq<bv8>, line: bv8, pos: bv8, works: bool) returns (res: int)
      requires 0 in text
      modifies sock`rx
      ensures res == if works then 0 else -1
      ensures sock.rx == old(sock.rx) +
              if works then Encode(Frame([0, 0, 0], ClientRequest(addr, Print(text, line, pos)))) else []
    {
      var req := BuildPrint(addr, text, line, pos);
      res := Write(req, works);
    }

    method ClearDisplay(works: bool) returns (res: int)
      modifies sock`rx
      ensures res == if works then 0 else -1
      ensures sock.rx == old(sock.rx) +
              if works then Encode(Frame([0, 0, 0], ClientRequest(addr, Clear))) else []
    {
      var req := BuildSimple([0, 0, 0], ClearReq(addr));
      res := Write(req, works);
    }

    /** The padding of this head is not initialised. */
    method SetBacklight(enable: bool, pad: Pad, works: bool) returns (res: int)
      modifies sock`rx
      ensures res == if works then 0 else -1
      ensures sock.rx == old(sock.rx) +
              if works then Encode(Frame(pad, ClientRequest(addr, Backlight(enable)))) else []
    {
      var req := BuildSimple(pad, BacklightReq(addr, Flag(enable)));
      res := Write(req, works);
    }

    /** First half of a button query: the request. */
    method AskBtnState(idx: bv32, pad: Pad, works: bool) returns (res: int)
      modifies sock`rx
      ensures res == if works then 0 else -1
      ensures sock.rx == old(sock.rx) + if works then Encode(Frame(pad, GetBtnStateReq(addr, idx))) else []
    {
      var req := BuildSimple(pad, GetBtnStateReq(addr, idx));
      res := Write(req, works);
    }

    /** Second half: one read of up to the size of a pointer, once there is something to read
        or the daemon has gone; an empty read is taken for a success. A failed read leaves
        the reply where it is. */
    method ReadBtnState(works: bool) returns (res: int, data: seq<bv8>)
      modifies sock`tx
      ensures res == if works then 0 else -1
      ensures data == (if works then Take(old(sock.tx), 8) else [])
      ensures sock.tx == old(sock.tx)[|data|..]
    {
      if !works { return -1, []; }
      res, data := 0, Take(sock.tx, READ_SIZE);
      sock.tx := sock.tx[|data|..];
    }
  }

  /** sizeof of the pointer argument, which is what the library asks for. */
  const READ_SIZE: nat := 8
}
