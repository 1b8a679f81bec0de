/** The request handler of the daemon, as a function of the bytes on a connection, and what
    it makes of streams of whole requests. */
module Cmds {
  import opened Seqs
  import opened CStrings
  import opened Wire
  import opened Stream

  datatype Outcome =
    | Idle                 // nothing to read: the client has gone
    | Failed               // short head, short parameters or unknown command
    | Executes(r: Request) // handed to the HAL

  datatype Handled = Handled(outcome: Outcome, queue: seq<bv8>, arrived: seq<bv8>, next: nat)

  /** What a handler makes of its parameter read: one that finds nothing counts as success
      and leaves the parameters zero. */
  function Parsed(addr: bv8, cmd: bv32, p: Receipt): Outcome
    requires cmd < CMD_COUNT
  {
    var size := ParamSize(cmd);
    if |p.data| == 0 then Executes(FromParams(addr, cmd, Zeros(size)))
    else if |p.data| != size then Failed
    else Executes(FromParams(addr, cmd, p.data))
  }

  /** The part of a call after the head has been read. */
  function Dispatched(addr: bv8, cmd: bv32, q: seq<bv8>, turns: Schedule, i: nat): Handled {
    if cmd >= CMD_COUNT then Handled(Failed, q, [], i)
    else if cmd == CMD_CLEAR then Handled(Executes(ClearReq(addr)), q, [], i)
    else
      var p := Receive(q, ParamSize(cmd), turns, i);
      Handled(Parsed(addr, cmd, p), p.queue, p.arrived, p.next)
  }

  /** One call of the handler. */
  function Handle(q: seq<bv8>, turns: Schedule, i: nat): Handled {
    var h := Receive(q, HEAD_SIZE, turns, i);
    if |h.data| == 0 then Handled(Idle, h.queue, h.arrived, h.next)
    else if |h.data| != HEAD_SIZE then Handled(Failed, h.queue, h.arrived, h.next)
    else
      var d := Dispatched(h.data[0], HeadCommand(h.data), h.queue, turns, h.next);
      d.(arrived := h.arrived + d.arrived)
  }

  /** The handler never loses track of a byte it has not consumed: what is left is a suffix
      of what was queued and what arrived. */
  lemma HandleConserves(q: seq<bv8>, turns: Schedule, i: nat) returns (used: seq<bv8>)
    ensures var h := Handle(q, turns, i);
            q + h.arrived == used + h.queue && |used| <= HEAD_SIZE + STRING_SIZE + 2
  {
    var h := Receive(q, HEAD_SIZE, turns, i);
    ReceiveConserves(q, HEAD_SIZE, turns, i);
    used := h.data;
    if |h.data| == HEAD_SIZE && HeadCommand(h.data) < CMD_COUNT && HeadCommand(h.data) != CMD_CLEAR {
      var size := ParamSize(HeadCommand(h.data));
      var p := Receive(h.queue, size, turns, h.next);
      ReceiveConserves(h.queue, size, turns, h.next);
      used := h.data + p.data;
      ConcatAssociative(q, h.arrived, p.arrived);
      ConcatAssociative(h.data, h.queue, p.arrived);
      ConcatAssociative(h.data, p.data, p.queue);
    }
  }

  /** A whole request at the head of the queue is decoded as it was encoded, whatever its
      padding, and exactly its bytes are consumed. */
  lemma HandleFrame(f: Frame, rest: seq<bv8>, turns: Schedule, i: nat)
    requires Prompt(turns)
    ensures var h := Handle(Encode(f) + rest, turns, i);
            h.outcome == Executes(f.req) && h.queue == rest + h.arrived
  {
    var head, params := Head(f.req.addr, f.pad, Command(f.req)), Params(f.req);
    var q := Encode(f) + rest;
    ConcatAssociative(head, params, rest);
    DropOfConcat(head, params + rest);
    PromptReceive(q, HEAD_SIZE, turns, i);
    HeadRoundTrip(f.req.addr, f.pad, Command(f.req));
    var h := Receive(q, HEAD_SIZE, turns, i);
    assert h.data == head;
    ParamsRoundTrip(f.req);
    if !f.req.ClearReq? {
      var size := ParamSize(Command(f.req));
      ConcatAssociative(params, rest, h.arrived);
      DropOfConcat(params, rest + h.arrived);
      PromptReceive(h.queue, size, turns, h.next);
      var p := Receive(h.queue, size, turns, h.next);
      assert p.data == params;
      ConcatAssociative(rest, h.arrived, p.arrived);
    }
  }

  /** A message long enough for any request is executed exactly when its command number,
      lowest byte first in bytes 4 to 7, is below 4; for any other its head alone is taken. */
  lemma CommandIff(q: seq<bv8>, cmd: bv32, turns: Schedule, i: nat)
    requires Prompt(turns) && |q| >= 27
    requires cmd == q[4] as bv32 + 0x100 * (q[5] as bv32) + 0x10000 * (q[6] as bv32) + 0x1000000 * (q[7] as bv32)
    ensures var h := Handle(q, turns, i);
            && (h.outcome.Executes? <==> cmd < 4)
            && (cmd >= 4 ==> h.outcome.Failed? && h.queue == q[8..] + h.arrived)
  {
    HeadRead(q, cmd, turns, i);
    var h := Receive(q, HEAD_SIZE, turns, i);
    DispatchedIff(h.data[0], cmd, h.queue, turns, h.next);
    assert h.arrived + [] == h.arrived;
  }

  lemma HeadRead(q: seq<bv8>, cmd: bv32, turns: Schedule, i: nat)
    requires Prompt(turns) && |q| >= 8
    requires cmd == q[4] as bv32 + 0x100 * (q[5] as bv32) + 0x10000 * (q[6] as bv32) + 0x1000000 * (q[7] as bv32)
    ensures var h := Receive(q, HEAD_SIZE, turns, i);
            |h.data| == HEAD_SIZE && HeadCommand(h.data) == cmd && h.queue == q[8..] + h.arrived
  {
    PromptReceive(q, HEAD_SIZE, turns, i);
    HeadDigits(q[..8], q[4], q[5], q[6], q[7]);
  }

  lemma DispatchedIff(addr: bv8, cmd: bv32, q: seq<bv8>, turns: Schedule, i: nat)
    requires Prompt(turns) && |q| >= 19
    ensures var d := Dispatched(addr, cmd, q, turns, i);
            && (d.outcome.Executes? <==> cmd < 4)
            && (cmd >= 4 ==> d.outcome.Failed? && d.queue == q && d.arrived == [])
  {
    if cmd < 4 && cmd != CMD_CLEAR {
      PromptReceive(q, ParamSize(cmd), turns, i);
    }
  }

  /** n calls of the handler in a row. */
  datatype Batch = Batch(outcomes: seq<Outcome>, queue: seq<bv8>, arrived: seq<bv8>)

  function HandleMany(q: seq<bv8>, n: nat, turns: Schedule, i: nat): Batch
    decreases n
  {
    if n == 0 then Batch([], q, [])
    else
      var h := Handle(q, turns, i);
      var b := HandleMany(h.queue, n - 1, turns, h.next);
      Batch([h.outcome] + b.outcomes, b.queue, h.arrived + b.arrived)
  }

  ghost predicate AllExecuted(outcomes: seq<Outcome>, fs: seq<Frame>) {
    |outcomes| == |fs| && forall k :: 0 <= k < |fs| ==> outcomes[k] == Executes(fs[k].req)
  }

  /** Framing: n whole requests are decoded by n calls, in order, and the stream is left on
      the boundary after them, followed by whatever arrived meanwhile. */
  lemma {:induction false} Framing(fs: seq<Frame>, rest: seq<bv8>, turns: Schedule, i: nat)
    requires Prompt(turns)
    ensures var b := HandleMany(EncodeAll(fs) + rest, |fs|, turns, i);
            AllExecuted(b.outcomes, fs) && b.queue == rest + b.arrived
    decreases |fs|
  {
    if fs == [] {
      assert EncodeAll(fs) + rest == rest;
    } else {
      var h := FramingStep(fs, rest, turns, i);
      Framing(fs[1..], rest + h.arrived, turns, h.next);
      var b := HandleMany(h.queue, |fs| - 1, turns, h.next);
      ConcatAssociative(rest, h.arrived, b.arrived);
    }
  }

  lemma FramingStep(fs: seq<Frame>, rest: seq<bv8>, turns: Schedule, i: nat) returns (h: Handled)
    requires Prompt(turns) && fs != []
    ensures h == Handle(EncodeAll(fs) + rest, turns, i)
    ensures h.outcome == Executes(fs[0].req)
    ensures h.queue == EncodeAll(fs[1..]) + (rest + h.arrived)
  {
    ConcatAssociative(Encode(fs[0]), EncodeAll(fs[1..]), rest);
    HandleFrame(fs[0], EncodeAll(fs[1..]) + rest, turns, i);
    h := Handle(EncodeAll(fs) + rest, turns, i);
    ConcatAssociative(EncodeAll(fs[1..]), rest, h.arrived);
  }

  /** Nothing arrives while the handler runs. */
  ghost predicate Quiet(turns: Schedule) {
    forall i: nat :: turns(i).arrives == []
  }

  /** The plain schedule: every read takes all there is, at once. */
  function Calm(): (turns: Schedule)
    ensures Prompt(turns) && Quiet(turns)
  {
    (i: nat) => Turn([], Whole, false)
  }

  lemma {:induction false} QuietReceive(q: seq<bv8>, want: nat, turns: Schedule, i: nat)
    requires Quiet(turns)
    ensures Receive(q, want, turns, i).arrived == []
    decreases want
  {
    if want > 0 {
      var q1 := q + turns(i).arrives;
      var k := ReadSize(|q1|, want, turns(i).amount);
      if k != 0 && !turns(i).late {
        QuietReceive(q1[k..], want - k, turns, i + 1);
      }
    }
  }

  /** A quiet, prompt call takes what is there, up to what it wants. */
  lemma {:induction false} QuietPromptReceive(q: seq<bv8>, want: nat, turns: Schedule, i: nat)
    requires Quiet(turns) && Prompt(turns)
    ensures var r := Receive(q, want, turns, i);
            r.data == Take(q, want) && r.queue == q[|r.data|..]
    decreases want
  {
    QuietReceive(q, want, turns, i);
    if want <= |q| {
      PromptReceive(q, want, turns, i);
    } else {
      var turn := turns(i);
      assert q + turn.arrives == q;
      var k := ReadSize(|q|, want, turn.amount);
      if k > 0 && !turn.late {
        QuietPromptReceive(q[k..], want - k, turns, i + 1);
        SplitAt(q, k);
        assert q[k..][|q| - k..] == [];
      }
    }
  }

  /** Every call on a non-empty queue consumes something, whatever the schedule, exactly if
      its first read does not fail. */
  lemma HandleShortens(q: seq<bv8>, turns: Schedule, i: nat)
    requires q != []
    ensures var h := Handle(q, turns, i);
            |h.queue| < |q| + |h.arrived| <==> !turns(i).amount.Fails?
  {
    ReceiveConserves(q, HEAD_SIZE, turns, i);
    var h := Receive(q, HEAD_SIZE, turns, i);
    assert h.data != [] <==> !turns(i).amount.Fails?;
    if |h.data| == HEAD_SIZE && HeadCommand(h.data) < CMD_COUNT && HeadCommand(h.data) != CMD_CLEAR {
      ReceiveConserves(h.queue, ParamSize(HeadCommand(h.data)), turns, h.next);
    }
  }

  /** Level-triggered readiness keeps calling the handler until the queue is empty. */
  ghost function Drain(q: seq<bv8>, turns: Schedule, i: nat): seq<Outcome>
    requires Quiet(turns) && Prompt(turns)
    decreases |q|
  {
    if q == [] then []
    else
      var h := Handle(q, turns, i);
      HandleShortens(q, turns, i);
      QuietHandle(q, turns, i);
      [h.outcome] + Drain(h.queue, turns, h.next)
  }

  lemma {:induction false} DrainDecodes(fs: seq<Frame>, turns: Schedule, i: nat)
    requires Quiet(turns) && Prompt(turns)
    ensures AllExecuted(Drain(EncodeAll(fs), turns, i), fs)
    decreases |fs|
  {
    if fs != [] {
      HandleFrame(fs[0], EncodeAll(fs[1..]), turns, i);
      var h := Handle(EncodeAll(fs), turns, i);
      QuietHandle(EncodeAll(fs), turns, i);
      assert h.queue == EncodeAll(fs[1..]);
      DrainDecodes(fs[1..], turns, h.next);
    }
  }

  lemma QuietHandle(q: seq<bv8>, turns: Schedule, i: nat)
    requires Quiet(turns)
    ensures Handle(q, turns, i).arrived == []
  {
    QuietReceive(q, HEAD_SIZE, turns, i);
    var h := Receive(q, HEAD_SIZE, turns, i);
    if |h.data| == HEAD_SIZE && HeadCommand(h.data) < CMD_COUNT {
      QuietReceive(h.queue, ParamSize(HeadCommand(h.data)), turns, h.next);
    }
  }

  /** Why requests must become readable whole. A call that sees only the first k bytes of a
      request executes it exactly when that is all of it, or when the head alone is there
      and the missing parameters are all zero. */
  lemma SplitRequestIff(f: Frame, k: nat, turns: Schedule, i: nat)
    requires Quiet(turns) && Prompt(turns) && 0 < k <= |Encode(f)|
    ensures Handle(Encode(f)[..k], turns, i).outcome == Executes(f.req) <==>
            k == |Encode(f)| || (k == HEAD_SIZE && Params(f.req) == Zeros(|Params(f.req)|))
  {
    if k < HEAD_SIZE {
      SplitInHead(f, k, turns, i);
    } else {
      SplitAfterHeadIff(f, k - HEAD_SIZE, k, turns, i);
    }
  }

  lemma SplitInHead(f: Frame, k: nat, turns: Schedule, i: nat)
    requires Quiet(turns) && Prompt(turns) && 0 < k < HEAD_SIZE
    ensures Handle(Encode(f)[..k], turns, i).outcome.Failed?
  {
    ShortHead(Encode(f)[..k], turns, i);
  }

  lemma SplitAfterHeadIff(f: Frame, j: nat, k: nat, turns: Schedule, i: nat)
    requires Quiet(turns) && Prompt(turns) && j <= |Params(f.req)| && k == HEAD_SIZE + j
    ensures Handle(Encode(f)[..k], turns, i).outcome == Executes(f.req) <==>
            j == |Params(f.req)| || (j == 0 && Params(f.req) == Zeros(|Params(f.req)|))
  {
    SplitAfterHead(f, j, turns, i);
    ZeroParams(f.req);
  }

  lemma ShortHead(q: seq<bv8>, turns: Schedule, i: nat)
    requires Quiet(turns) && Prompt(turns) && 0 < |q| < HEAD_SIZE
    ensures Handle(q, turns, i).outcome.Failed?
  {
    QuietPromptReceive(q, HEAD_SIZE, turns, i);
  }

  lemma ZeroParams(r: Request)
    ensures FromParams(r.addr, Command(r), Zeros(|Params(r)|)) == r <==> Params(r) == Zeros(|Params(r)|)
  {
    ParamsRoundTrip(r);
  }

  /** The head and the first j bytes of the parameters. */
  lemma SplitAfterHead(f: Frame, j: nat, turns: Schedule, i: nat)
    requires Quiet(turns) && Prompt(turns) && j <= |Params(f.req)|
    ensures var size := |Params(f.req)|;
            Handle(Encode(f)[..HEAD_SIZE + j], turns, i).outcome ==
            if j == size then Executes(f.req)
            else if j == 0 then Executes(FromParams(f.req.addr, Command(f.req), Zeros(size)))
            else Failed
  {
    var head, params := Head(f.req.addr, f.pad, Command(f.req)), Params(f.req);
    var q := Encode(f)[..HEAD_SIZE + j];
    assert q == head + params[..j];
    var h := Receive(q, HEAD_SIZE, turns, i);
    HeadReceived(head, params[..j], turns, i);
    HeadRoundTrip(f.req.addr, f.pad, Command(f.req));
    DispatchPrefix(f.req, j, turns, h.next);
  }

  lemma HeadReceived(head: seq<bv8>, rest: seq<bv8>, turns: Schedule, i: nat)
    requires Quiet(turns) && Prompt(turns) && |head| == HEAD_SIZE
    ensures var h := Receive(head + rest, HEAD_SIZE, turns, i); h.data == head && h.queue == rest
  {
    DropOfConcat(head, rest);
    QuietPromptReceive(head + rest, HEAD_SIZE, turns, i);
  }

  lemma DispatchPrefix(r: Request, j: nat, turns: Schedule, i: nat)
    requires Quiet(turns) && Prompt(turns) && j <= |Params(r)|
    ensures var size := |Params(r)|;
            Dispatched(r.addr, Command(r), Params(r)[..j], turns, i).outcome ==
            if j == size then Executes(r)
            else if j == 0 then Executes(FromParams(r.addr, Command(r), Zeros(size)))
            else Failed
  {
    var params := Params(r);
    ParamsRoundTrip(r);
    QuietPromptReceive(params[..j], |params|, turns, i);
    assert Take(params[..j], |params|) == params[..j];
    assert params[..|params|] == params;
  }
}
