/** The functionfs daemon on the device: command bytes from USB to the device daemon's socket,
    button events from the library's callback to the interrupt endpoint. */
module Gadget {
  import opened Seqs
  import opened CStrings
  import opened Wire
  import opened Stream
  import opened Buttons
  import opened Replication

  const EP_CMD_BUF_SIZE: nat := 8192
  const EVENT_SIZE: nat := 8  // state and index

  /** What one read of the command endpoint gives: a USB transfer, with what the write that
      passes it on will return, a reason to try again, or an error that ends the thread. */
  datatype EpRead = Data(bytes: seq<bv8>, ret: int) | Retry | Abort

  /** What a write takes of its bytes. */
  function Taken(bytes: seq<bv8>, ret: int): seq<bv8> {
    if ret < 0 then [] else Take(bytes, ret)
  }

  /** The bytes passed on: what is taken of every transfer before the first fatal error, in
      order. */
  function Forwarded(input: seq<EpRead>): seq<bv8> {
    if input == [] then []
    else
      match input[0]
      case Data(bytes, ret) => Taken(bytes, ret) + Forwarded(input[1..])
      case Retry => Forwarded(input[1..])
      case Abort => []
  }

  /** Nothing is passed on after the first fatal error, and everything before it is. */
  lemma {:induction false} AbortEnds(before: seq<EpRead>, later: seq<EpRead>)
    requires forall i :: 0 <= i < |before| ==> !before[i].Abort?
    ensures Forwarded(before + [Abort] + later) == Forwarded(before)
    decreases |before|
  {
    var all := before + [Abort] + later;
    if before != [] {
      assert all[1..] == before[1..] + [Abort] + later;
      AbortEnds(before[1..], later);
    }
  }

  /** A transfer is passed on as far as its write takes it, after what came before. */
  lemma {:induction false} OneMoreTransfer(before: seq<EpRead>, bytes: seq<bv8>, ret: int)
    requires forall i :: 0 <= i < |before| ==> !before[i].Abort?
    requires ret <= |bytes|
    ensures Forwarded(before + [Data(bytes, ret)]) == Forwarded(before) + if ret < 0 then [] else bytes[..ret]
    ensures Forwarded(before + [Retry]) == Forwarded(before)
    decreases |before|
  {
    if before == [] {
      assert [Data(bytes, ret)][1..] == [] && [Retry][1..] == [];
      assert before + [Data(bytes, ret)] == [Data(bytes, ret)] && before + [Retry] == [Retry];
      assert Take(bytes, |bytes|) == bytes == bytes[..|bytes|];
    } else {
      assert (before + [Data(bytes, ret)])[1..] == before[1..] + [Data(bytes, ret)];
      assert (before + [Retry])[1..] == before[1..] + [Retry];
      OneMoreTransfer(before[1..], bytes, ret);
    }
  }

  predicate FitsBuffer(read: EpRead) {
    read.Data? ==> 0 < |read.bytes| <= EP_CMD_BUF_SIZE && read.ret <= |read.bytes|
  }

  /** The transfers, each a whole request as the host's HAL writes it. */
  function Transfers(input: seq<EpRead>): seq<seq<bv8>> {
    if input == [] then []
    else (if input[0].Data? then [input[0].bytes] else []) + Transfers(input[1..])
  }

  /** Interrupted reads do not disturb the framing: as long as writes take all they are given,
      requests come out as they went in. */
  lemma {:induction false} ForwardingKeepsFrames(input: seq<EpRead>, fs: seq<Frame>)
    requires forall i :: 0 <= i < |input| ==> !input[i].Abort? && (input[i].Data? ==> input[i].ret == |input[i].bytes|)
    requires |Transfers(input)| == |fs|
    requires forall i :: 0 <= i < |fs| ==> Transfers(input)[i] == Encode(fs[i])
    ensures Forwarded(input) == EncodeAll(fs)
  {
    if input != [] {
      var rest := Transfers(input[1..]);
      if input[0].Data? {
        assert Transfers(input) == [input[0].bytes] + rest;
        assert Transfers(input)[0] == Encode(fs[0]);
        forall i | 0 <= i < |fs| - 1 ensures rest[i] == Encode(fs[1..][i]) {
          assert rest[i] == Transfers(input)[i + 1];
        }
        ForwardingKeepsFrames(input[1..], fs[1..]);
      } else {
        assert Transfers(input) == rest;
        ForwardingKeepsFrames(input[1..], fs);
      }
    }
  }

  class CommandThread {
    const buffer: array<bv8>
    const sock: Socket

    constructor (sock: Socket)
      ensures this.sock == sock && buffer.Length == EP_CMD_BUF_SIZE == 8192 && fresh(buffer)
    {
      buffer := new bv8[EP_CMD_BUF_SIZE](_ => 0);
      this.sock := sock;
    }

    /** The callback writes as many bytes of the buffer as were read, once: what is not taken
        is not tried again. */
    method HandleCmdEp(size: nat, ret: int) returns (res: int)
      requires ret <= size <= buffer.Length
      modifies sock`rx
      ensures res == ret
      ensures sock.rx == old(sock.rx) + Taken(buffer[..size], ret)
    {
      sock.rx := sock.rx + Taken(buffer[..size], ret);
      res := ret;
    }

    method Fill(bytes: seq<bv8>)
      requires |bytes| <= buffer.Length
      modifies buffer
      ensures buffer[..|bytes|] == bytes
    {
      forall i | 0 <= i < |bytes| {
        buffer[i] := bytes[i];
      }
    }

    /** The endless read loop, for the reads that happen. */
    method Run(input: seq<EpRead>)
      requires buffer.Length == EP_CMD_BUF_SIZE && forall i :: 0 <= i < |input| ==> FitsBuffer(input[i])
      modifies buffer, sock`rx
      ensures sock.rx == old(sock.rx) + Forwarded(input)
    {
      var i := 0;
      ghost var goal := sock.rx + Forwarded(input);
      assert input[0..] == input;
      while i < |input|
        invariant i <= |input| && sock.rx + Forwarded(input[i..]) == goal
      {
        assert input[i..][1..] == input[i + 1..];
        assert FitsBuffer(input[i]);
        match input[i] {
          case Data(bytes, ret) =>
            Fill(bytes);
            ghost var before := sock.rx;
            var _ := HandleCmdEp(|bytes|, ret);
            ConcatAssociative(before, Taken(bytes, ret), Forwarded(input[i + 1..]));
          case Retry =>
          case Abort =>
            break;
        }
        i := i + 1;
      }
      assert sock.rx + [] == sock.rx;
    }
  }

  /** The interrupt endpoint: what has been written and not yet fetched by the host. */
  class InterruptEndpoint {
    var queued: seq<seq<bv8>>

    constructor ()
      ensures queued == []
    {
      queued := [];
    }

    /** write(2) takes the bytes up to some length, or fails. */
    method Write(bytes: seq<bv8>, ret: int) returns (res: int)
      requires ret <= |bytes|
      modifies this
      ensures res == ret
      ensures queued == old(queued) + if 0 <= ret then [bytes[..ret]] else []
    {
      if 0 <= ret {
        queued := queued + [bytes[..ret]];
      }
      res := ret;
    }

    /** btn_event_callback: one write of the event and no second attempt, whatever became of
        it; the outcome goes to the log only. */
    method BtnEventCallback(ev: Event, ret: int) returns (delivered: bool)
      requires ret <= EVENT_SIZE
      modifies this
      ensures queued == old(queued) + if 0 <= ret then [EncodeEvent(ev)[..ret]] else []
      ensures delivered <==> queued == old(queued) + [EncodeEvent(ev)]
    {
      ghost var before := queued;
      var bytes := EncodeEvent(ev);
      var res := Write(bytes, ret);
      delivered := 0 <= res && EVENT_SIZE == res;
      assert delivered ==> bytes[..ret] == bytes;
      assert queued == before + [bytes] ==> queued[|before|] == bytes;
    }
  }
}
