/** Reading from a non-blocking stream socket: the reassembly loop of the IPC helpers. */
module Stream {
  import opened Seqs

  /** One read(2) call as the environment decides it: bytes that reach the socket just
      before it, how much of what is there it delivers, and whether the read timeout has
      passed when it returns. A failing read also stands for end of file. */
  datatype Amount = Whole | Part(n: nat) | Fails
  datatype Turn = Turn(arrives: seq<bv8>, amount: Amount, late: bool)

  type Schedule = nat -> Turn

  function ReadSize(avail: nat, want: nat, amount: Amount): (k: nat)
    ensures k <= avail && k <= want
    ensures !amount.Fails? && avail > 0 && want > 0 ==> k > 0
  {
    var most := if avail < want then avail else want;
    match amount
    case Fails => 0
    case Whole => most
    case Part(n) => if n == 0 && most > 0 then 1 else if n < most then n else most
  }

  /** What a run of the loop delivers, what it leaves in the socket, what arrived meanwhile
      and the number of the next read call. */
  datatype Receipt = Receipt(data: seq<bv8>, queue: seq<bv8>, arrived: seq<bv8>, next: nat)

  function Receive(q: seq<bv8>, want: nat, turns: Schedule, i: nat): Receipt
    decreases want
  {
    if want == 0 then Receipt([], q, [], i)
    else
      var turn := turns(i);
      var q1 := q + turn.arrives;
      var k := ReadSize(|q1|, want, turn.amount);
      if k == 0 || turn.late then Receipt(q1[..k], q1[k..], turn.arrives, i + 1)
      else
        var r := Receive(q1[k..], want - k, turns, i + 1);
        Receipt(q1[..k] + r.data, r.queue, turn.arrives + r.arrived, r.next)
  }

  /** No read fails, and the timeout does not pass between the pieces of what is already
      there. A read may still deliver any part of it. */
  ghost predicate Prompt(turns: Schedule) {
    forall i: nat :: !turns(i).amount.Fails? && (turns(i).late ==> turns(i).amount.Whole?)
  }

  /** Nothing is lost, duplicated or reordered, for every chunking and timeout: what was
      queued and what arrived is what was delivered followed by what is left. */
  lemma {:induction false} ReceiveConserves(q: seq<bv8>, want: nat, turns: Schedule, i: nat)
    ensures var r := Receive(q, want, turns, i);
            q + r.arrived == r.data + r.queue && |r.data| <= want
    decreases want
  {
    if want > 0 {
      var turn := turns(i);
      var q1 := q + turn.arrives;
      var k := ReadSize(|q1|, want, turn.amount);
      SplitAt(q1, k);
      if k > 0 && !turn.late {
        var r := Receive(q1[k..], want - k, turns, i + 1);
        ReceiveConserves(q1[k..], want - k, turns, i + 1);
        ConcatAssociative(q, turn.arrives, r.arrived);
        ConcatAssociative(q1[..k], q1[k..], r.arrived);
        ConcatAssociative(q1[..k], r.data, r.queue);
      }
    }
  }

  /** The loop goes on exactly as long as it may: every read but the last has delivered
      something in time, and after the last one everything wanted is there, or that read has
      failed, was late, or has left the socket empty. */
  lemma {:induction false} StopsExactly(q: seq<bv8>, want: nat, turns: Schedule, i: nat)
    ensures var r := Receive(q, want, turns, i);
            && (want == 0 <==> r.next == i) && i <= r.next <= i + |r.data| + 1
            && (forall j :: i <= j < r.next - 1 ==> !turns(j).late && !turns(j).amount.Fails?)
            && (|r.data| < want ==>
                  turns(r.next - 1).amount.Fails? || turns(r.next - 1).late || r.queue == [])
    decreases want
  {
    if want > 0 {
      var turn := turns(i);
      var q1 := q + turn.arrives;
      var k := ReadSize(|q1|, want, turn.amount);
      if k != 0 && !turn.late {
        StopsExactly(q1[k..], want - k, turns, i + 1);
      }
    }
  }

  /** When the bytes wanted are already there, the loop puts them together from whatever
      pieces the reads deliver: exactly they are taken. */
  lemma {:induction false} PromptReceive(q: seq<bv8>, want: nat, turns: Schedule, i: nat)
    requires Prompt(turns) && want <= |q|
    ensures var r := Receive(q, want, turns, i);
            r.data == q[..want] && r.queue == q[want..] + r.arrived
    decreases want
  {
    if want > 0 {
      var turn := turns(i);
      var q1 := q + turn.arrives;
      var k := ReadSize(|q1|, want, turn.amount);
      assert q1[..k] == q[..k] && q1[k..] == q[k..] + turn.arrives;
      if turn.late {
        assert k == want;
      } else {
        PromptReceive(q1[k..], want - k, turns, i + 1);
        PieceByPiece(q, k, want, turn.arrives, Receive(q1[k..], want - k, turns, i + 1).arrived);
      }
    }
  }

  lemma PieceByPiece(q: seq<bv8>, k: nat, want: nat, a: seq<bv8>, b: seq<bv8>)
    requires k <= want <= |q|
    ensures q[..k] + (q[k..] + a)[..want - k] == q[..want]
    ensures (q[k..] + a)[want - k..] + b == q[want..] + (a + b)
  {
  }

  /** A connected socket seen from the daemon: bytes to read, bytes written back. */
  class Socket {
    var rx: seq<bv8>
    var tx: seq<bv8>
    var peerGone: bool   // the client has closed its end
    var signalled: bool  // a write has raised SIGPIPE

    constructor ()
      ensures rx == [] && tx == [] && !peerGone && !signalled
    {
      rx, tx, peerGone, signalled := [], [], false, false;
    }

    /** write(2) of a few bytes: all of them go, or none if nobody is there to read them. */
    method Write(bytes: seq<bv8>) returns (res: int)
      modifies this`tx, this`signalled
      ensures res == if peerGone then -1 else |bytes|
      ensures tx == old(tx) + if peerGone then [] else bytes
      ensures signalled == (old(signalled) || peerGone)
    {
      if peerGone {
        signalled := true;
        return -1;
      }
      tx := tx + bytes;
      res := |bytes|;
    }

    /** read(2) of at most `want` bytes to buf[at..]. */
    method Read(buf: array<bv8>, at: nat, want: nat, turn: Turn) returns (k: nat)
      requires at + want <= buf.Length
      modifies this`rx, buf
      ensures k == ReadSize(|old(rx) + turn.arrives|, want, turn.amount)
      ensures buf[..at + k] == old(buf[..at]) + (old(rx) + turn.arrives)[..k]
      ensures buf[at + k..] == old(buf[at + k..])
      ensures rx == (old(rx) + turn.arrives)[k..]
    {
      rx := rx + turn.arrives;
      k := ReadSize(|rx|, want, turn.amount);
      ghost var data := rx;
      forall j | 0 <= j < k {
        buf[at + j] := rx[j];
      }
      assert buf[..at + k] == old(buf[..at]) + data[..k];
      rx := rx[k..];
    }
  }

  /** Halfway through the loop: the buffer holds the beginning of what will be delivered, and
      the rest of the reads deliver the rest. */
  ghost predicate Underway(data: seq<bv8>, start: seq<bv8>, rx: seq<bv8>, received: nat, expected: nat,
                           turns: Schedule, next: nat, all: Receipt) {
    && received <= expected <= |data| == |start|
    && data[received..] == start[received..]
    && var r := Receive(rx, expected - received, turns, next);
       all.data == data[..received] + r.data && all.queue == r.queue && all.next == r.next
  }

  /** One more read: the last one, or one on the way. */
  lemma OneRead(data: seq<bv8>, data': seq<bv8>, start: seq<bv8>, rx: seq<bv8>, received: nat, expected: nat,
                turns: Schedule, next: nat, all: Receipt, k: nat)
    requires Underway(data, start, rx, received, expected, turns, next, all) && received < expected
    requires k == ReadSize(|rx + turns(next).arrives|, expected - received, turns(next).amount)
    requires |data'| == |data| && data'[..received + k] == data[..received] + (rx + turns(next).arrives)[..k]
    requires data'[received + k..] == data[received + k..]
    ensures var rx' := (rx + turns(next).arrives)[k..];
            if k == 0 || turns(next).late
            then all.data == data'[..received + k] && all.queue == rx' && all.next == next + 1
                 && data'[received + k..] == start[received + k..]
            else Underway(data', start, rx', received + k, expected, turns, next + 1, all)
  {
    var q1 := rx + turns(next).arrives;
    assert data[received + k..] == data[received..][k..] && start[received + k..] == start[received..][k..];
    if k != 0 && !turns(next).late {
      ConcatAssociative(data[..received], q1[..k], Receive(q1[k..], expected - received - k, turns, next + 1).data);
    }
  }

  /** Fill the first `expected` bytes of buf from the socket, as far as the schedule lets. */
  method SocketTimeoutRead(sock: Socket, buf: array<bv8>, expected: nat, turns: Schedule, first: nat)
    returns (received: nat, next: nat)
    requires expected <= buf.Length
    modifies sock`rx, buf
    ensures var r := Receive(old(sock.rx), expected, turns, first);
            && received == |r.data| <= expected && next == r.next
            && buf[..received] == r.data && buf[received..] == old(buf[received..])
            && sock.rx == r.queue
  {
    received, next := 0, first;
    ghost var all, start := Receive(sock.rx, expected, turns, first), buf[..];
    while received < expected
      invariant Underway(buf[..], start, sock.rx, received, expected, turns, next, all)
      decreases expected - received
    {
      ghost var data, rx := buf[..], sock.rx;
      var k := sock.Read(buf, received, expected - received, turns(next));
      OneRead(data, buf[..], start, rx, received, expected, turns, next, all, k);
      received, next := received + k, next + 1;
      if k == 0 || turns(next - 1).late {
        return;
      }
    }
  }
}
