/** The two ends of a request in numbers: the bytes a call of the client library writes, and what
    the display's wires carry when the device has executed it. */
module Reference {
  import opened Seqs
  import opened CStrings
  import opened Wire
  import opened Relay
  import opened Client
  import opened Hal
  import opened LcdReading
  import D = LcdDriver

  // ------------------------------------------------- what the client writes

  /** A print: 27 bytes, command 0, the text cut to 16 characters and filled with zeros in
      bytes 8 to 24, the line in byte 25, the position in byte 26. */
  lemma PrintBytes(addr: bv8, text: seq<bv8>, line: bv8, pos: bv8, pad: Pad)
    ensures var b, shown := Encode(Frame(pad, ClientRequest(addr, Print(text, line, pos)))), Take(CString(text), 16);
            && |b| == 27 && b[0] == addr && b[4] == b[5] == b[6] == b[7] == 0
            && (forall i :: 0 <= i < 17 ==> b[8 + i] == if i < |shown| then shown[i] else 0)
            && b[25] == line && b[26] == pos
  {
    var f := Frame(pad, ClientRequest(addr, Print(text, line, pos)));
    Layout(f);
    forall i | 0 <= i < 17 ensures Encode(f)[8 + i] == f.req.str[i] {
      assert Encode(f)[8..25][i] == Encode(f)[8 + i];
    }
    FittedBytes(text);
  }

  lemma FittedBytes(text: seq<bv8>)
    ensures var s, shown := FitString(text), Take(CString(text), 16);
            forall i :: 0 <= i < 17 ==> s[i] == if i < |shown| then shown[i] else 0
  {
  }

  /** A clear: 8 bytes, command 1. */
  lemma ClearBytes(addr: bv8, pad: Pad)
    ensures Encode(Frame(pad, ClientRequest(addr, Clear))) == [addr] + pad + [1, 0, 0, 0]
  {
    Layout(Frame(pad, ClientRequest(addr, Clear)));
  }

  /** A backlight call: 9 bytes, command 2, then 1 for on and 0 for off. */
  lemma BacklightBytes(addr: bv8, on: bool, pad: Pad)
    ensures Encode(Frame(pad, ClientRequest(addr, Backlight(on)))) ==
            [addr] + pad + [2, 0, 0, 0, if on then 1 else 0]
  {
    Layout(Frame(pad, ClientRequest(addr, Backlight(on))));
  }

  /** A button query: 12 bytes, command 3, then the index, lowest byte first. */
  lemma QueryBytes(addr: bv8, idx: bv32, pad: Pad)
    ensures var b := Encode(Frame(pad, GetBtnStateReq(addr, idx)));
            && |b| == 12 && b[0] == addr && b[4] == 3 && b[5] == b[6] == b[7] == 0
            && idx == b[8] as bv32 + 0x100 * (b[9] as bv32) + 0x10000 * (b[10] as bv32) + 0x1000000 * (b[11] as bv32)
  {
    var b := Encode(Frame(pad, GetBtnStateReq(addr, idx)));
    Layout(Frame(pad, GetBtnStateReq(addr, idx)));
    Le32Digits(idx);
    assert b[8..12][0] == b[8] && b[8..12][1] == b[9] && b[8..12][2] == b[10] && b[8..12][3] == b[11];
  }

  // ----------------------------------------------- what the display is told

  /** A print request is a print of its text up to the terminator, or on into memory if its field
      has none, on its line and at its position. */
  lemma PrintOnWires(addr: bv8, str: Str, line: bv8, pos: bv8, beyond: Beyond)
    ensures var text := CString(str + [line, pos] + beyond);
            && BusOutput(PrintReq(addr, str, line, pos), beyond) == D.Trace(D.Print(text, line, pos))
            && (0 in str ==> text == CString(str))
  {
    var text := ShownText(str, line, pos, beyond);
    ConcatAssociative(str, [line, pos], beyond);
    D.TracesOfOne(D.Print(text, line, pos));
  }

  lemma ClearOnWires(addr: bv8, beyond: Beyond, after: bool, now: bv8)
    requires now & 0x04 == 0
    ensures var ts := Read(after, now, BusOutput(ClearReq(addr), beyond));
            |ts| == 2 && !ts[0].rs && ts[0].b == 0x01 && !ts[1].rs && ts[1].b == 0x02
  {
    D.TracesOfOne(D.Clear);
    ClearReads(after, now);
  }

  /** Any byte but 0 switches the light on. */
  lemma BacklightOnWires(addr: bv8, enable: bv8, beyond: Beyond)
    ensures BusOutput(BacklightReq(addr, enable), beyond) == [if enable == 0 then 0x00 else 0x08]
  {
    D.TracesOfOne(D.Backlight(enable != 0));
    BacklightReads(enable != 0, false, 0);
  }

  /** Any query at all leaves the display alone. */
  lemma QueryOnWires(addr: bv8, idx: bv32, beyond: Beyond)
    ensures BusOutput(GetBtnStateReq(addr, idx), beyond) == []
  {
  }

  /** The answer to a query: four bytes, the lowest first, if the index is below 3 and the
      button can be read; nothing otherwise, and nothing to any other request. */
  lemma ReplyOnSocket(buttons: Buttons, r: Request)
    ensures var b := ReplyBytes(buttons, r);
            if r.GetBtnStateReq? && r.idx < 3 && buttons(r.addr, r.idx).Some?
            then
              && |b| == 4
              && buttons(r.addr, r.idx).value ==
                 b[0] as bv32 + 0x100 * (b[1] as bv32) + 0x10000 * (b[2] as bv32) + 0x1000000 * (b[3] as bv32)
            else b == []
  {
    if r.GetBtnStateReq? && r.idx < 3 && buttons(r.addr, r.idx).Some? {
      Le32Digits(buttons(r.addr, r.idx).value);
    }
  }

  // ----------------------------------------------------- what the host sends

  /** Exactly the requests for the display of an attached device are passed on, to its device
      file, in one packet that reads as the request itself with the text cut to 16 characters
      and enable as 0 or 1. */
  lemma PacketsIff(attached: set<bv8>, pad: Pad, r: Request)
    ensures var ps := Packets(attached, pad, r);
            if r.addr !in attached || r.GetBtnStateReq? then ps == []
            else
              && |ps| == 1 && ps[0].addr == r.addr
              && (r.PrintReq? ==>
                    ps[0].bytes == [r.addr] + [0, 0, 0] + [0, 0, 0, 0] + FitString(r.str) + [r.line, r.pos])
              && (r.ClearReq? ==> ps[0].bytes == [r.addr] + pad + [1, 0, 0, 0])
              && (r.BacklightReq? ==> ps[0].bytes == [r.addr] + pad + [2, 0, 0, 0] + [if r.enable == 0 then 0 else 1])
  {
    if !r.GetBtnStateReq? && r.addr in attached {
      var f := Frame(PadOf(r, pad), Reencode(r));
      Layout(f);
      Sections(Encode(f));
    }
  }

  /** A message in its parts. */
  lemma Sections(b: seq<bv8>)
    requires |b| >= 8
    ensures b[..8] == [b[0]] + b[1..4] + [b[4], b[5], b[6], b[7]]
    ensures |b| == 27 ==> b == b[..8] + b[8..25] + [b[25], b[26]]
    ensures |b| == 9 ==> b == b[..8] + [b[8]]
    ensures |b| == 8 ==> b == b[..8]
  {
  }
}
