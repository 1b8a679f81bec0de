/** The whole way of a call: client library, host daemon, USB relay, device daemon, display.
    Every stage runs when it likes, also while a handler of the next one runs; the theorems
    hold for every interleaving. */
module EndToEnd {
  import opened Seqs
  import opened CStrings
  import opened Wire
  import opened Relay
  import opened Stream
  import opened Cmds
  import opened Client
  import opened Hal
  import D = LcdDriver
  import H = Hd44780
  import L = LcdScreen

  /** The same call made directly on the device, with the text cut to 16 characters. */
  function Direct(call: HostCall): D.Call {
    match call
    case Print(text, line, pos) => D.Print(Take(CString(text), 16), line, pos)
    case Clear => D.Clear
    case Backlight(on) => D.Backlight(on)
  }

  function DirectAll(calls: seq<HostCall>): (r: seq<D.Call>)
    ensures |r| == |calls| && forall i :: 0 <= i < |calls| ==> r[i] == Direct(calls[i])
  {
    seq(|calls|, i requires 0 <= i < |calls| => Direct(calls[i]))
  }

  lemma ClientRequestMeaning(addr: bv8, call: HostCall)
    ensures var r := ClientRequest(addr, call);
            && !r.GetBtnStateReq? && r.addr == addr && Canonical(r) && Reencode(r) == r
            && (r.PrintReq? ==> 0 in r.str)
            && forall beyond: Beyond :: DisplayCalls(r, beyond) == [Direct(call)]
  {
    RelayTransparentIff(ClientRequest(addr, call));
  }

  /** Relay transparency: what the client encoded, decoded by the host daemon and re-encoded
      by its HAL, is the same request, whatever the padding on either side. */
  lemma RelayedUnchanged(addr: bv8, call: HostCall, pad: Pad, pad': Pad, rest: seq<bv8>, turns: Schedule, i: nat)
    requires Prompt(turns)
    ensures var r := ClientRequest(addr, call);
            var h := Handle(Encode(Frame(pad, r)) + rest, turns, i);
            && h.outcome == Executes(r)
            && Packets({addr}, pad', r) == [Packet(addr, Encode(Frame(PadOf(r, pad'), r)))]
  {
    HandleFrame(Frame(pad, ClientRequest(addr, call)), rest, turns, i);
    ClientRequestMeaning(addr, call);
  }

  /** The state of the pipeline. The bytes and packets are what the stages hold; the frames
      beside them say which requests these are. */
  datatype Pipe = Pipe(
    calls: seq<HostCall>,       // made by the client so far
    done: nat,                  // how many the device has executed
    hostQueue: seq<bv8>, hostFrames: seq<Frame>,
    usb: seq<Packet>, usbFrames: seq<Frame>,
    deviceQueue: seq<bv8>, deviceFrames: seq<Frame>,
    bus: seq<bv8>)

  const START: Pipe := Pipe([], 0, [], [], [], [], [], [], [])

  /** A call as it is written: with the padding its head happens to carry. */
  datatype Made = Made(call: HostCall, pad: Pad)

  /** A daemon's step is one call of its handler; with it goes what arrives while it runs: new
      calls at the host daemon, relayed packets at the device daemon. */
  datatype Step =
    | Call(made: Made)
    | HostDaemon(turns: Schedule, pad: Pad, arriving: seq<Made>)
    | UsbRelay
    | DeviceDaemon(turns: Schedule, beyond: Beyond, relayed: nat)

  function CallFrame(addr: bv8, made: Made): Frame {
    Frame(made.pad, ClientRequest(addr, made.call))
  }

  function CallFrames(addr: bv8, made: seq<Made>): seq<Frame> {
    if made == [] then [] else [CallFrame(addr, made[0])] + CallFrames(addr, made[1..])
  }

  function PacketBytes(packets: seq<Packet>): seq<bv8> {
    if packets == [] then [] else packets[0].bytes + PacketBytes(packets[1..])
  }

  ghost predicate Enabled(addr: bv8, p: Pipe, step: Step) {
    match step
    case Call(_) => true
    case HostDaemon(turns, _, arriving) =>
      && p.hostQueue != [] && Prompt(turns)
      && Handle(p.hostQueue, turns, 0).arrived == EncodeAll(CallFrames(addr, arriving))
    case UsbRelay => p.usb != []
    case DeviceDaemon(turns, _, n) =>
      && p.deviceQueue != [] && Prompt(turns) && n <= |p.usb|
      && Handle(p.deviceQueue, turns, 0).arrived == PacketBytes(p.usb[..n])
  }

  function Tail<T>(s: seq<T>): seq<T> {
    if s == [] then [] else s[1..]
  }

  /** One step, for a device with the given address. What each daemon does is what its
      handler and HAL do. */
  function Do(addr: bv8, p: Pipe, step: Step): Pipe {
    match step
    case Call(made) => Called(addr, p, made)
    case HostDaemon(turns, pad, arriving) =>
      var h := Handle(p.hostQueue, turns, 0);
      CalledAll(addr, HostAfter(addr, p, h.outcome, pad), arriving).(hostQueue := h.queue)
    case UsbRelay => Relayed(p)
    case DeviceDaemon(turns, beyond, n) =>
      var h := Handle(p.deviceQueue, turns, 0);
      RelayedMany(DeviceAfter(p, h.outcome, beyond), n).(deviceQueue := h.queue)
  }

  function Called(addr: bv8, p: Pipe, made: Made): Pipe {
    var f := CallFrame(addr, made);
    p.(calls := p.calls + [made.call], hostQueue := p.hostQueue + Encode(f), hostFrames := p.hostFrames + [f])
  }

  function CalledAll(addr: bv8, p: Pipe, made: seq<Made>): Pipe
    decreases |made|
  {
    if made == [] then p else CalledAll(addr, Called(addr, p, made[0]), made[1..])
  }

  function Relayed(p: Pipe): Pipe {
    if p.usb == [] || p.usbFrames == [] then p
    else p.(usb := p.usb[1..], usbFrames := p.usbFrames[1..],
            deviceQueue := p.deviceQueue + p.usb[0].bytes, deviceFrames := p.deviceFrames + [p.usbFrames[0]])
  }

  function RelayedMany(p: Pipe, n: nat): Pipe
    decreases n
  {
    if n == 0 then p else RelayedMany(Relayed(p), n - 1)
  }

  /** What a handler call does to everything but the bytes of its own queue. */
  function HostAfter(addr: bv8, p: Pipe, outcome: Outcome, pad: Pad): Pipe {
    match outcome
    case Executes(r) =>
      if r.GetBtnStateReq? then p.(hostFrames := Tail(p.hostFrames))
      else
        var f := Frame(PadOf(r, pad), Reencode(r));
        p.(hostFrames := Tail(p.hostFrames),
           usb := p.usb + Packets({addr}, pad, r), usbFrames := p.usbFrames + [f])
    case _ => p
  }

  function DeviceAfter(p: Pipe, outcome: Outcome, beyond: Beyond): Pipe {
    match outcome
    case Executes(r) =>
      p.(deviceFrames := Tail(p.deviceFrames), done := p.done + 1, bus := p.bus + BusOutput(r, beyond))
    case _ => p
  }

  function ClientRequests(addr: bv8, calls: seq<HostCall>): (rs: seq<Request>)
    ensures |rs| == |calls| && forall i :: 0 <= i < |calls| ==> rs[i] == ClientRequest(addr, calls[i])
  {
    seq(|calls|, i requires 0 <= i < |calls| => ClientRequest(addr, calls[i]))
  }

  /** The requests under way, nearest the display first. */
  function UnderWay(p: Pipe): seq<Request> {
    Requests(p.deviceFrames) + (Requests(p.usbFrames) + Requests(p.hostFrames))
  }

  /** The bytes and packets of every stage are those of its frames. */
  ghost predicate Stages(addr: bv8, p: Pipe) {
    && p.hostQueue == EncodeAll(p.hostFrames)
    && p.deviceQueue == EncodeAll(p.deviceFrames)
    && |p.usb| == |p.usbFrames|
    && (forall i :: 0 <= i < |p.usb| ==> p.usb[i] == Packet(addr, Encode(p.usbFrames[i])))
  }

  /** Every call is executed or under way, in order, and the bus carries exactly the direct
      calls of those executed. */
  ghost predicate Accounted(addr: bv8, p: Pipe) {
    && p.done <= |p.calls|
    && UnderWay(p) == ClientRequests(addr, p.calls[p.done..])
    && p.bus == D.Traces(DirectAll(p.calls[..p.done]))
  }

  ghost predicate Inv(addr: bv8, p: Pipe) {
    Stages(addr, p) && Accounted(addr, p)
  }

  lemma AppendFrame(fs: seq<Frame>, f: Frame)
    ensures EncodeAll(fs + [f]) == EncodeAll(fs) + Encode(f)
    ensures Requests(fs + [f]) == Requests(fs) + [f.req]
  {
    EncodeAllConcat(fs, [f]);
    EncodeOne(f);
  }

  lemma FirstFrame(fs: seq<Frame>)
    requires fs != []
    ensures Requests(fs) == [fs[0].req] + Requests(fs[1..])
  {
  }

  lemma HandleFirst(fs: seq<Frame>, turns: Schedule)
    requires fs != [] && Prompt(turns)
    ensures var h := Handle(EncodeAll(fs), turns, 0);
            h.outcome == Executes(fs[0].req) && h.queue == EncodeAll(fs[1..]) + h.arrived
  {
    HandleFrame(fs[0], EncodeAll(fs[1..]), turns, 0);
  }

  lemma NextUnderWay(addr: bv8, p: Pipe, n: nat)
    requires Accounted(addr, p) && n < |UnderWay(p)|
    ensures p.done + n < |p.calls| && UnderWay(p)[n] == ClientRequest(addr, p.calls[p.done + n])
  {
    assert p.calls[p.done..][n] == p.calls[p.done + n];
  }

  lemma CallKeepsInv(addr: bv8, p: Pipe, made: Made)
    requires Inv(addr, p)
    ensures Inv(addr, Called(addr, p, made))
  {
    var f := CallFrame(addr, made);
    AppendFrame(p.hostFrames, f);
    AppendCall(addr, p.calls, p.done, made.call);
    ConcatAssociative(Requests(p.usbFrames), Requests(p.hostFrames), [f.req]);
    ConcatAssociative(Requests(p.deviceFrames), Requests(p.usbFrames) + Requests(p.hostFrames), [f.req]);
  }

  lemma {:induction false} CallsKeepInv(addr: bv8, p: Pipe, made: seq<Made>)
    requires Inv(addr, p)
    ensures Inv(addr, CalledAll(addr, p, made))
    decreases |made|
  {
    if made != [] {
      CallKeepsInv(addr, p, made[0]);
      CallsKeepInv(addr, Called(addr, p, made[0]), made[1..]);
    }
  }

  /** Calls arriving at a queue append their bytes to it, whatever it holds. */
  lemma {:induction false} CallBytes(addr: bv8, p: Pipe, q: seq<bv8>, made: seq<Made>)
    ensures CalledAll(addr, p.(hostQueue := q), made) ==
            CalledAll(addr, p, made).(hostQueue := q + EncodeAll(CallFrames(addr, made)))
    decreases |made|
  {
    if made == [] {
      assert q + [] == q;
    } else {
      var f, rest := CallFrame(addr, made[0]), CallFrames(addr, made[1..]);
      assert Called(addr, p.(hostQueue := q), made[0]) == Called(addr, p, made[0]).(hostQueue := q + Encode(f));
      CallBytes(addr, Called(addr, p, made[0]), q + Encode(f), made[1..]);
      ConcatAssociative(q, Encode(f), EncodeAll(rest));
      assert ([f] + rest)[1..] == rest;
    }
  }

  lemma AppendCall(addr: bv8, calls: seq<HostCall>, n: nat, call: HostCall)
    requires n <= |calls|
    ensures ClientRequests(addr, (calls + [call])[n..]) == ClientRequests(addr, calls[n..]) + [ClientRequest(addr, call)]
    ensures (calls + [call])[..n] == calls[..n]
  {
    assert (calls + [call])[n..] == calls[n..] + [call];
  }

  /** What the host daemon does with the request at the head of its queue: it becomes a USB
      packet with the same request; then the calls that arrived join the queue. */
  lemma HostStep(addr: bv8, p: Pipe, turns: Schedule, pad: Pad, arriving: seq<Made>) returns (p1: Pipe, f: Frame)
    requires Inv(addr, p) && Enabled(addr, p, HostDaemon(turns, pad, arriving))
    ensures p.hostFrames != [] && f.req == p.hostFrames[0].req
    ensures p1 == p.(hostQueue := EncodeAll(p.hostFrames[1..]), hostFrames := p.hostFrames[1..],
                     usb := p.usb + [Packet(addr, Encode(f))], usbFrames := p.usbFrames + [f])
    ensures Do(addr, p, HostDaemon(turns, pad, arriving)) == CalledAll(addr, p1, arriving)
  {
    HandleFirst(p.hostFrames, turns);
    var r, rest := p.hostFrames[0].req, EncodeAll(p.hostFrames[1..]);
    var n := |p.deviceFrames| + |p.usbFrames|;
    assert UnderWay(p)[n] == r;
    NextUnderWay(addr, p, n);
    f := HostExecutes(addr, p, p.calls[p.done + n], pad);
    var after := HostAfter(addr, p, Executes(r), pad);
    p1 := after.(hostQueue := rest);
    CallBytes(addr, after, rest, arriving);
  }

  lemma HostExecutes(addr: bv8, p: Pipe, call: HostCall, pad: Pad) returns (f: Frame)
    requires p.hostFrames != []
    ensures f.req == ClientRequest(addr, call)
    ensures HostAfter(addr, p, Executes(ClientRequest(addr, call)), pad) ==
            p.(hostFrames := p.hostFrames[1..], usb := p.usb + [Packet(addr, Encode(f))], usbFrames := p.usbFrames + [f])
  {
    var r := ClientRequest(addr, call);
    ClientRequestMeaning(addr, call);
    f := Frame(PadOf(r, pad), r);
  }

  lemma HostKeepsInv(addr: bv8, p: Pipe, turns: Schedule, pad: Pad, arriving: seq<Made>)
    requires Inv(addr, p) && Enabled(addr, p, HostDaemon(turns, pad, arriving))
    ensures Inv(addr, Do(addr, p, HostDaemon(turns, pad, arriving)))
  {
    var p1, f := HostStep(addr, p, turns, pad, arriving);
    HostMovesOne(addr, p, p1, f);
    CallsKeepInv(addr, p1, arriving);
  }

  lemma HostMovesOne(addr: bv8, p: Pipe, p1: Pipe, f: Frame)
    requires Inv(addr, p) && p.hostFrames != [] && f.req == p.hostFrames[0].req
    requires p1 == p.(hostQueue := EncodeAll(p.hostFrames[1..]), hostFrames := p.hostFrames[1..],
                      usb := p.usb + [Packet(addr, Encode(f))], usbFrames := p.usbFrames + [f])
    ensures Inv(addr, p1)
  {
    AppendFrame(p.usbFrames, f);
    FirstFrame(p.hostFrames);
    ConcatAssociative(Requests(p.usbFrames), [f.req], Requests(p.hostFrames[1..]));
  }

  lemma RelayKeepsInv(addr: bv8, p: Pipe)
    requires Inv(addr, p) && p.usb != []
    ensures Inv(addr, Relayed(p)) && |Relayed(p).usb| == |p.usb| - 1
  {
    var f := p.usbFrames[0];
    AppendFrame(p.deviceFrames, f);
    FirstFrame(p.usbFrames);
    ConcatAssociative([f.req], Requests(p.usbFrames[1..]), Requests(p.hostFrames));
    ConcatAssociative(Requests(p.deviceFrames), [f.req], Requests(p.usbFrames[1..]) + Requests(p.hostFrames));
  }

  lemma {:induction false} RelaysKeepInv(addr: bv8, p: Pipe, n: nat)
    requires Inv(addr, p) && n <= |p.usb|
    ensures Inv(addr, RelayedMany(p, n))
    decreases n
  {
    if n > 0 {
      RelayKeepsInv(addr, p);
      RelaysKeepInv(addr, Relayed(p), n - 1);
    }
  }

  lemma {:induction false} RelayBytes(p: Pipe, q: seq<bv8>, n: nat)
    requires |p.usb| == |p.usbFrames| && n <= |p.usb|
    ensures RelayedMany(p.(deviceQueue := q), n) ==
            RelayedMany(p, n).(deviceQueue := q + PacketBytes(p.usb[..n]))
    decreases n
  {
    if n == 0 {
      assert q + [] == q;
    } else {
      var first := p.usb[0].bytes;
      assert Relayed(p.(deviceQueue := q)) == Relayed(p).(deviceQueue := q + first);
      RelayBytes(Relayed(p), q + first, n - 1);
      assert p.usb[..n][1..] == p.usb[1..][..n - 1];
      ConcatAssociative(q, first, PacketBytes(p.usb[1..][..n - 1]));
    }
  }

  lemma BusOutputOfCall(addr: bv8, call: HostCall, beyond: Beyond)
    ensures BusOutput(ClientRequest(addr, call), beyond) == D.Traces([Direct(call)])
  {
    ClientRequestMeaning(addr, call);
  }

  lemma DeviceExecutes(addr: bv8, p: Pipe, beyond: Beyond)
    requires Accounted(addr, p) && p.deviceFrames != []
    ensures p.done < |p.calls|
    ensures DeviceAfter(p, Executes(p.deviceFrames[0].req), beyond) ==
            p.(deviceFrames := p.deviceFrames[1..],
               done := p.done + 1, bus := p.bus + D.Traces([Direct(p.calls[p.done])]))
  {
    DeviceOldest(addr, p);
    BusOutputOfCall(addr, p.calls[p.done], beyond);
  }

  lemma DeviceStep(addr: bv8, p: Pipe, turns: Schedule, beyond: Beyond, n: nat) returns (p1: Pipe)
    requires Inv(addr, p) && Enabled(addr, p, DeviceDaemon(turns, beyond, n))
    ensures p.deviceFrames != [] && p.done < |p.calls|
    ensures p1 == p.(deviceQueue := EncodeAll(p.deviceFrames[1..]), deviceFrames := p.deviceFrames[1..],
                     done := p.done + 1, bus := p.bus + D.Traces([Direct(p.calls[p.done])]))
    ensures Do(addr, p, DeviceDaemon(turns, beyond, n)) == RelayedMany(p1, n)
  {
    HandleFirst(p.deviceFrames, turns);
    DeviceExecutes(addr, p, beyond);
    var rest := EncodeAll(p.deviceFrames[1..]);
    var after := p.(deviceFrames := p.deviceFrames[1..],
                    done := p.done + 1, bus := p.bus + D.Traces([Direct(p.calls[p.done])]));
    p1 := after.(deviceQueue := rest);
    RelayBytes(after, rest, n);
  }

  lemma DeviceOldest(addr: bv8, p: Pipe)
    requires Accounted(addr, p) && p.deviceFrames != []
    ensures p.done < |p.calls| && p.deviceFrames[0].req == ClientRequest(addr, p.calls[p.done])
  {
    assert UnderWay(p)[0] == p.deviceFrames[0].req;
    NextUnderWay(addr, p, 0);
  }

  lemma DeviceKeepsInv(addr: bv8, p: Pipe, turns: Schedule, beyond: Beyond, n: nat)
    requires Inv(addr, p) && Enabled(addr, p, DeviceDaemon(turns, beyond, n))
    ensures Inv(addr, Do(addr, p, DeviceDaemon(turns, beyond, n)))
  {
    var p1 := DeviceStep(addr, p, turns, beyond, n);
    DeviceDropsOne(addr, p, p1);
    RelaysKeepInv(addr, p1, n);
  }

  lemma DeviceDropsOne(addr: bv8, p: Pipe, p1: Pipe)
    requires Inv(addr, p) && p.deviceFrames != [] && p.done < |p.calls|
    requires p1 == p.(deviceQueue := EncodeAll(p.deviceFrames[1..]), deviceFrames := p.deviceFrames[1..],
                      done := p.done + 1, bus := p.bus + D.Traces([Direct(p.calls[p.done])]))
    ensures Inv(addr, p1)
  {
    DropFirst(addr, p.calls[p.done..], p.deviceFrames, Requests(p.usbFrames) + Requests(p.hostFrames));
    assert p.calls[p.done..][1..] == p.calls[p.done + 1..];
    OneMoreCall(p.calls, p.done);
    assert Stages(addr, p1) && Accounted(addr, p1);
  }

  lemma DropFirst(addr: bv8, calls: seq<HostCall>, fs: seq<Frame>, rest: seq<Request>)
    requires fs != [] && Requests(fs) + rest == ClientRequests(addr, calls)
    ensures calls != [] && Requests(fs[1..]) + rest == ClientRequests(addr, calls[1..])
  {
    assert |calls| == |ClientRequests(addr, calls)| > 0;
    FirstFrame(fs);
    ConcatAssociative([fs[0].req], Requests(fs[1..]), rest);
    assert (Requests(fs) + rest)[1..] == Requests(fs[1..]) + rest;
    assert ClientRequests(addr, calls)[1..] == ClientRequests(addr, calls[1..]);
  }

  lemma OneMoreCall(calls: seq<HostCall>, n: nat)
    requires n < |calls|
    ensures D.Traces(DirectAll(calls[..n + 1])) == D.Traces(DirectAll(calls[..n])) + D.Traces([Direct(calls[n])])
  {
    assert DirectAll(calls[..n + 1]) == DirectAll(calls[..n]) + [Direct(calls[n])];
    D.TracesConcat(DirectAll(calls[..n]), [Direct(calls[n])]);
  }

  lemma StepKeepsInv(addr: bv8, p: Pipe, step: Step)
    requires Inv(addr, p) && Enabled(addr, p, step)
    ensures Inv(addr, Do(addr, p, step))
  {
    match step
    case Call(made) => CallKeepsInv(addr, p, made);
    case HostDaemon(turns, pad, arriving) => HostKeepsInv(addr, p, turns, pad, arriving);
    case UsbRelay => RelayKeepsInv(addr, p);
    case DeviceDaemon(turns, beyond, n) => DeviceKeepsInv(addr, p, turns, beyond, n);
  }

  ghost predicate Runs(addr: bv8, p: Pipe, steps: seq<Step>)
    decreases |steps|
  {
    steps == [] || (Enabled(addr, p, steps[0]) && Runs(addr, Do(addr, p, steps[0]), steps[1..]))
  }

  function After(addr: bv8, p: Pipe, steps: seq<Step>): Pipe
    decreases |steps|
  {
    if steps == [] then p else After(addr, Do(addr, p, steps[0]), steps[1..])
  }

  /** A run is all of its steps, one after the other. */
  lemma {:induction false} AfterOneMore(addr: bv8, p: Pipe, a: seq<Step>, step: Step)
    ensures After(addr, p, a + [step]) == Do(addr, After(addr, p, a), step)
    decreases |a|
  {
    if a == [] {
      assert a + [step] == [step] && [step][1..] == [];
      assert After(addr, Do(addr, p, step), []) == Do(addr, p, step);
    } else {
      assert (a + [step])[1..] == a[1..] + [step];
      AfterOneMore(addr, Do(addr, p, a[0]), a[1..], step);
    }
  }

  lemma {:induction false} RunKeepsInv(addr: bv8, p: Pipe, steps: seq<Step>)
    requires Inv(addr, p) && Runs(addr, p, steps)
    ensures Inv(addr, After(addr, p, steps))
    decreases |steps|
  {
    if steps != [] {
      StepKeepsInv(addr, p, steps[0]);
      RunKeepsInv(addr, Do(addr, p, steps[0]), steps[1..]);
    }
  }

  predicate Quiescent(p: Pipe) {
    p.hostQueue == [] && p.usb == [] && p.deviceQueue == []
  }

  /** In every run the bus carries what the same calls, made directly on the device, would
      have put there, for as many of them as have come through; when nothing is under way,
      for all of them. */
  lemma EveryRunRelays(addr: bv8, steps: seq<Step>)
    requires Runs(addr, START, steps)
    ensures var p := After(addr, START, steps);
            && p.done <= |p.calls|
            && p.bus == D.Traces(DirectAll(p.calls[..p.done]))
            && (Quiescent(p) ==> p.bus == D.Traces(DirectAll(p.calls)))
  {
    assert START.calls[..0] == [];
    assert Inv(addr, START);
    RunKeepsInv(addr, START, steps);
    var p := After(addr, START, steps);
    if Quiescent(p) {
      NoFrames(p.hostFrames);
      NoFrames(p.deviceFrames);
      assert p.calls[..p.done] == p.calls;
    }
  }

  lemma NoFrames(fs: seq<Frame>)
    requires EncodeAll(fs) == []
    ensures fs == []
  {
  }

  /** From every reachable state the pipeline can run to rest without the client's help. */
  lemma CanSettle(addr: bv8, p: Pipe, turns: Schedule) returns (steps: seq<Step>)
    requires Inv(addr, p) && Prompt(turns) && Quiet(turns)
    ensures Runs(addr, p, steps)
    ensures Quiescent(After(addr, p, steps)) && After(addr, p, steps).calls == p.calls
    decreases Remaining(p)
  {
    if Quiescent(p) {
      steps := [];
    } else {
      var step := NextStep(addr, p, turns);
      var rest := CanSettle(addr, Do(addr, p, step), turns);
      steps := [step] + rest;
      assert steps[1..] == rest;
    }
  }

  /** Stages still ahead of the requests under way. */
  function Remaining(p: Pipe): nat {
    3 * |p.hostFrames| + 2 * |p.usbFrames| + |p.deviceFrames|
  }

  ghost predicate Progress(addr: bv8, p: Pipe, step: Step) {
    Enabled(addr, p, step) && Do(addr, p, step).calls == p.calls && Remaining(Do(addr, p, step)) < Remaining(p)
  }

  lemma HostProgress(addr: bv8, p: Pipe, turns: Schedule)
    requires Inv(addr, p) && p.hostQueue != [] && Prompt(turns) && Quiet(turns)
    ensures Progress(addr, p, HostDaemon(turns, [0, 0, 0], []))
  {
    QuietHandle(p.hostQueue, turns, 0);
    var _, _ := HostStep(addr, p, turns, [0, 0, 0], []);
  }

  lemma RelayProgress(addr: bv8, p: Pipe)
    requires Inv(addr, p) && p.usb != []
    ensures Progress(addr, p, UsbRelay)
  {
  }

  lemma DeviceProgress(addr: bv8, p: Pipe, turns: Schedule)
    requires Inv(addr, p) && p.deviceQueue != [] && Prompt(turns) && Quiet(turns)
    ensures Progress(addr, p, DeviceDaemon(turns, [0], 0))
  {
    QuietHandle(p.deviceQueue, turns, 0);
    var _ := DeviceStep(addr, p, turns, [0], 0);
  }

  lemma NextStep(addr: bv8, p: Pipe, turns: Schedule) returns (step: Step)
    requires Inv(addr, p) && !Quiescent(p) && Prompt(turns) && Quiet(turns)
    ensures Progress(addr, p, step) && Inv(addr, Do(addr, p, step))
  {
    if p.hostQueue != [] {
      step := HostDaemon(turns, [0, 0, 0], []);
      HostProgress(addr, p, turns);
    } else if p.usb != [] {
      step := UsbRelay;
      RelayProgress(addr, p);
    } else {
      step := DeviceDaemon(turns, [0], 0);
      DeviceProgress(addr, p, turns);
    }
    StepKeepsInv(addr, p, step);
  }

  predicate InRange(call: HostCall) {
    call.Print? ==> L.Addressable(call.line, call.pos)
  }

  lemma CallsShown(calls: seq<HostCall>, noise: nat -> H.Noise, t: nat, m: H.Machine)
    requires forall call :: call in calls ==> InRange(call)
    ensures forall c :: c in DirectAll(calls) ==> L.Valid(c)
    ensures var m' := H.Run(D.Commands(D.SETUP) + D.Traces(DirectAll(calls)), noise, t, m);
            && L.Ready(m')
            && L.View(m') == L.ApplyAll(DirectAll(calls), L.Screen(H.BlankRam(), 0, true))
  {
    forall c | c in DirectAll(calls) ensures L.Valid(c) {
      var i :| 0 <= i < |calls| && c == DirectAll(calls)[i];
      assert InRange(calls[i]);
    }
    L.SetupThenCalls(DirectAll(calls), noise, t, m);
  }

  /** End to end: from any state of the display controller at power-up, after setup and any
      run of the pipeline that has come to rest, the controller shows what the calls say,
      each text cut to its first 16 characters. */
  lemma EndToEndScreen(addr: bv8, steps: seq<Step>, noise: nat -> H.Noise, t: nat, m: H.Machine)
    requires Runs(addr, START, steps) && Quiescent(After(addr, START, steps))
    requires forall call :: call in After(addr, START, steps).calls ==> InRange(call)
    ensures var p := After(addr, START, steps);
            var m' := H.Run(D.Commands(D.SETUP) + p.bus, noise, t, m);
            && L.Ready(m')
            && (forall c :: c in DirectAll(p.calls) ==> L.Valid(c))
            && L.View(m') == L.ApplyAll(DirectAll(p.calls), L.Screen(H.BlankRam(), 0, true))
  {
    EveryRunRelays(addr, steps);
    CallsShown(After(addr, START, steps).calls, noise, t, m);
  }
}
