/** Both daemons at once: any number of clients of the host daemon, the USB relay as one client
    of the device daemon, and any number of others there. What the display's bus carries is
    traced back to the host's clients. */
module Composed {
  import opened Seqs
  import opened CStrings
  import opened Wire
  import opened Relay
  import opened Cmds
  import opened Hal
  import opened Daemon
  import opened MultiClient
  import D = LcdDriver
  import H = Hd44780
  import L = LcdScreen

  /** The device daemon's connection from the relay. */
  const RELAY: ConnId := 0

  /** The two daemons and the packets between them; the frames say which requests these are. */
  datatype System = System(host: State, usb: seq<Packet>, usbFrames: seq<Frame>, device: State)

  const DEVICE: State := State(map[RELAY := Conn([], false, Waiting, [], [])], [RELAY], [], [], [], true)

  const BOOTED: System := System(Daemon.START, [], [], DEVICE)

  /** A step of either daemon or its clients; the packet of a request the host executes has some
      padding. Between the daemons packets are relayed one by one. */
  datatype Move =
    | OnHost(step: Step, pad: Pad)
    | Passes
    | OnDevice(step: Step)

  /** The event at hand is about the relay's connection. */
  predicate ServesRelay(device: State) {
    device.batch != [] && device.batch[0].Ready? && device.batch[0].id == RELAY
  }

  /** The packets that arrive at the device daemon while it serves the relay. */
  function Arriving(device: State, step: Step): seq<Frame> {
    if step.Dispatch? && ServesRelay(device) then step.service.arriving else []
  }

  ghost predicate Can(s: System, move: Move) {
    match move
    case OnHost(step, _) => Enabled(s.host, step)
    case Passes => s.usb != [] && s.usbFrames != [] && RELAY in s.device.conns && !s.device.conns[RELAY].hungUp
    case OnDevice(step) =>
      && Enabled(s.device, step)
      && (step.Send? ==> step.id != RELAY)
      && Arriving(s.device, step) <= s.usbFrames && |Arriving(s.device, step)| <= |s.usb|
  }

  // --------------------------------------------------- what the host sends

  /** The HAL of the host passes a display request on to the device it names. */
  predicate GoesTo(addr: bv8, r: Request) {
    !r.GetBtnStateReq? && r.addr == addr
  }

  function PacketFrames(addr: bv8, pad: Pad, r: Request): seq<Frame> {
    if GoesTo(addr, r) then [Frame(PadOf(r, pad), Reencode(r))] else []
  }

  /** The requests a log of the host makes the device see. */
  function Relayed(addr: bv8, log: seq<Entry>): seq<Request> {
    if log == [] then []
    else
      var r := log[|log| - 1].req;
      Relayed(addr, log[..|log| - 1]) + if GoesTo(addr, r) then [Reencode(r)] else []
  }

  /** Newly executed requests leave as packets. */
  ghost function Emitted(addr: bv8, s: System, host: State, pad: Pad): System {
    if |host.log| > |s.host.log| then
      var r := host.log[|host.log| - 1].req;
      s.(host := host, usb := s.usb + Packets({addr}, pad, r), usbFrames := s.usbFrames + PacketFrames(addr, pad, r))
    else s.(host := host)
  }

  ghost function Next(addr: bv8, s: System, move: Move): System
    requires Can(s, move)
  {
    match move
    case OnHost(step, pad) => Emitted(addr, s, Do(s.host, step), pad)
    case Passes =>
      var c := s.device.conns[RELAY];
      s.(usb := s.usb[1..], usbFrames := s.usbFrames[1..],
         device := s.device.(conns := s.device.conns[RELAY := c.(queue := c.queue + s.usb[0].bytes,
                                                                 sent := c.sent + [s.usbFrames[0]])]))
    case OnDevice(step) =>
      var n := |Arriving(s.device, step)|;
      s.(usb := s.usb[n..], usbFrames := s.usbFrames[n..], device := Do(s.device, step))
  }

  // ------------------------------------------------------------- invariant

  /** The packets are the encoded frames. */
  ghost predicate Encoded(addr: bv8, usb: seq<Packet>, frames: seq<Frame>) {
    |usb| == |frames| && forall i :: 0 <= i < |usb| ==> usb[i] == Packet(addr, Encode(frames[i]))
  }

  /** What the relay has written and what it still holds is what the host has executed for
      this device. */
  ghost predicate Passed(addr: bv8, device: State, frames: seq<Frame>, log: seq<Entry>) {
    && RELAY in device.conns
    && Requests(device.conns[RELAY].sent) + Requests(frames) == Relayed(addr, log)
  }

  ghost predicate Linked(addr: bv8, s: System) {
    Encoded(addr, s.usb, s.usbFrames) && Passed(addr, s.device, s.usbFrames, s.host.log)
  }

  ghost predicate Sound(addr: bv8, s: System) {
    Inv(s.host) && Inv(s.device) && Linked(addr, s)
  }

  lemma BootedSound(addr: bv8)
    ensures Sound(addr, BOOTED)
  {
    StartKeepsInv();
    ConnectKeepsInv(Daemon.START, RELAY);
    assert Do(Daemon.START, Connect(RELAY)) == DEVICE;
  }

  lemma LogStep(s: State, step: Step)
    requires Enabled(s, step)
    ensures var log := Do(s, step).log;
            log == s.log || (|log| == |s.log| + 1 && log[..|s.log|] == s.log)
  {
  }

  lemma RequestsConcat(a: seq<Frame>, b: seq<Frame>)
    ensures Requests(a + b) == Requests(a) + Requests(b)
  {
  }

  lemma HostKeepsSound(addr: bv8, s: System, step: Step, pad: Pad)
    requires Sound(addr, s) && Enabled(s.host, step)
    ensures Sound(addr, Next(addr, s, OnHost(step, pad)))
  {
    StepKeepsInv(s.host, step);
    LogStep(s.host, step);
    EmitKeepsLinked(addr, s, Do(s.host, step), pad);
  }

  lemma EmitKeepsLinked(addr: bv8, s: System, host: State, pad: Pad)
    requires Linked(addr, s)
    requires host.log == s.host.log || (|host.log| == |s.host.log| + 1 && host.log[..|s.host.log|] == s.host.log)
    ensures Linked(addr, Emitted(addr, s, host, pad))
  {
    if |host.log| > |s.host.log| {
      var r := host.log[|host.log| - 1].req;
      PacketOf(addr, pad, r);
      PassedOn(addr, s.device, s.usbFrames, s.host.log, host.log, PacketFrames(addr, pad, r));
    }
  }

  lemma PassedOn(addr: bv8, device: State, frames: seq<Frame>, log: seq<Entry>, log': seq<Entry>, more: seq<Frame>)
    requires Passed(addr, device, frames, log) && log' != [] && log'[..|log'| - 1] == log
    requires var r := log'[|log'| - 1].req;
             Requests(more) == if GoesTo(addr, r) then [Reencode(r)] else []
    ensures Passed(addr, device, frames + more, log')
  {
    RequestsConcat(frames, more);
    ConcatAssociative(Requests(device.conns[RELAY].sent), Requests(frames), Requests(more));
  }

  /** A request executed by the host is one more packet or none. */
  lemma PacketOf(addr: bv8, pad: Pad, r: Request)
    ensures Requests(PacketFrames(addr, pad, r)) == if GoesTo(addr, r) then [Reencode(r)] else []
    ensures Encoded(addr, Packets({addr}, pad, r), PacketFrames(addr, pad, r))
  {
  }

  lemma PassesIsSend(addr: bv8, s: System)
    requires Linked(addr, s) && Can(s, Passes)
    ensures Enabled(s.device, Send(RELAY, s.usbFrames[0]))
    ensures Next(addr, s, Passes) ==
            s.(usb := s.usb[1..], usbFrames := s.usbFrames[1..], device := Do(s.device, Send(RELAY, s.usbFrames[0])))
  {
    assert s.usb[0] == Packet(addr, Encode(s.usbFrames[0]));
  }

  lemma RelayWrites(device: State, f: Frame)
    requires Inv(device) && Enabled(device, Send(RELAY, f))
    ensures var device' := Do(device, Send(RELAY, f));
            Inv(device') && RELAY in device'.conns && device'.conns[RELAY].sent == device.conns[RELAY].sent + [f]
  {
    ClientStepKeepsInv(device, Send(RELAY, f));
  }

  lemma PassesKeepsSound(addr: bv8, s: System)
    requires Sound(addr, s) && Can(s, Passes)
    ensures Sound(addr, Next(addr, s, Passes))
  {
    var f := s.usbFrames[0];
    PassesIsSend(addr, s);
    RelayWrites(s.device, f);
    assert s.usbFrames[..1] == [f];
    RelayKeepsSound(addr, s, Do(s.device, Send(RELAY, f)), 1);
  }

  /** Moving n packets over keeps the account. */
  lemma RelayKeepsSound(addr: bv8, s: System, device: State, n: nat)
    requires Linked(addr, s) && Inv(s.host) && Inv(device)
    requires n <= |s.usbFrames| && RELAY in device.conns
    requires device.conns[RELAY].sent == s.device.conns[RELAY].sent + s.usbFrames[..n]
    ensures Sound(addr, s.(usb := s.usb[n..], usbFrames := s.usbFrames[n..], device := device))
  {
    MovesOver(s.device.conns[RELAY].sent, s.usbFrames, n);
    EncodedRest(addr, s.usb, s.usbFrames, n);
  }

  lemma EncodedRest(addr: bv8, usb: seq<Packet>, frames: seq<Frame>, n: nat)
    requires Encoded(addr, usb, frames) && n <= |usb|
    ensures Encoded(addr, usb[n..], frames[n..])
  {
  }

  /** The first n frames change sides. */
  lemma MovesOver(sent: seq<Frame>, waiting: seq<Frame>, n: nat)
    requires n <= |waiting|
    ensures Requests(sent + waiting[..n]) + Requests(waiting[n..]) == Requests(sent) + Requests(waiting)
  {
    SplitAt(waiting, n);
    RequestsConcat(sent, waiting[..n]);
    RequestsConcat(waiting[..n], waiting[n..]);
    ConcatAssociative(Requests(sent), Requests(waiting[..n]), Requests(waiting[n..]));
  }

  /** What the device's step adds to what the relay has written. */
  lemma RelaySent(device: State, step: Step)
    requires Inv(device) && RELAY in device.conns && Enabled(device, step) && (step.Send? ==> step.id != RELAY)
    ensures RELAY in Do(device, step).conns
    ensures Do(device, step).conns[RELAY].sent == device.conns[RELAY].sent + Arriving(device, step)
  {
    if step.Dispatch? {
      assert Current(device.conns, device.batch[0]);
      DispatchSent(device.(batch := device.batch[1..]), device.batch[0], step.service);
    } else {
      OthersSent(device, step);
    }
  }

  lemma OthersSent(device: State, step: Step)
    requires RELAY in device.conns && Enabled(device, step) && !step.Dispatch? && (step.Send? ==> step.id != RELAY)
    ensures RELAY in Do(device, step).conns && Do(device, step).conns[RELAY].sent == device.conns[RELAY].sent + []
  {
  }

  lemma DispatchSent(device: State, e: Event, service: Service)
    requires RELAY in device.conns && (e.Ready? ==> e.input && e.id in device.conns)
    ensures var conns' := Process(device, e, service).conns;
            && RELAY in conns'
            && conns'[RELAY].sent ==
               device.conns[RELAY].sent + (if e.Ready? && e.id == RELAY then service.arriving else [])
  {
  }

  lemma DeviceKeepsSound(addr: bv8, s: System, step: Step)
    requires Sound(addr, s) && Can(s, OnDevice(step))
    ensures Sound(addr, Next(addr, s, OnDevice(step)))
  {
    DeviceIs(addr, s, step);
    StepKeepsInv(s.device, step);
    RelaySent(s.device, step);
    RelayKeepsSound(addr, s, Do(s.device, step), |Arriving(s.device, step)|);
  }

  lemma DeviceIs(addr: bv8, s: System, step: Step)
    requires Can(s, OnDevice(step))
    ensures var n := |Arriving(s.device, step)|;
            && n <= |s.usbFrames| && s.usbFrames[..n] == Arriving(s.device, step)
            && Next(addr, s, OnDevice(step)) ==
               s.(usb := s.usb[n..], usbFrames := s.usbFrames[n..], device := Do(s.device, step))
  {
  }

  lemma MoveKeepsSound(addr: bv8, s: System, move: Move)
    requires Sound(addr, s) && Can(s, move)
    ensures Sound(addr, Next(addr, s, move))
  {
    match move
    case OnHost(step, pad) => HostKeepsSound(addr, s, step, pad);
    case Passes => PassesKeepsSound(addr, s);
    case OnDevice(step) => DeviceKeepsSound(addr, s, step);
  }

  // ------------------------------------------------------------ whole runs

  ghost predicate Happens(addr: bv8, s: System, moves: seq<Move>)
    decreases |moves|
  {
    moves == [] || (Can(s, moves[0]) && Happens(addr, Next(addr, s, moves[0]), moves[1..]))
  }

  ghost function Then(addr: bv8, s: System, moves: seq<Move>): System
    requires Happens(addr, s, moves)
    decreases |moves|
  {
    if moves == [] then s else Then(addr, Next(addr, s, moves[0]), moves[1..])
  }

  /** A run is all of its moves, one after the other. */
  lemma {:induction false} ThenConcat(addr: bv8, s: System, a: seq<Move>, move: Move)
    requires Happens(addr, s, a) && Can(Then(addr, s, a), move)
    ensures Happens(addr, s, a + [move]) && Then(addr, s, a + [move]) == Next(addr, Then(addr, s, a), move)
    decreases |a|
  {
    if a == [] {
      assert a + [move] == [move] && [move][1..] == [];
      assert Then(addr, Next(addr, s, move), []) == Next(addr, s, move);
    } else {
      assert (a + [move])[1..] == a[1..] + [move];
      ThenConcat(addr, Next(addr, s, a[0]), a[1..], move);
    }
  }

  lemma {:induction false} RunKeepsSound(addr: bv8, s: System, moves: seq<Move>)
    requires Sound(addr, s) && Happens(addr, s, moves)
    ensures Sound(addr, Then(addr, s, moves))
    decreases |moves|
  {
    if moves != [] {
      MoveKeepsSound(addr, s, moves[0]);
      RunKeepsSound(addr, Next(addr, s, moves[0]), moves[1..]);
    }
  }

  /** Nothing for this device is under way any more. */
  predicate Delivered(s: System) {
    s.usb == [] && RELAY in s.device.conns && s.device.conns[RELAY].queue == []
  }

  lemma EmptyQueue(c: Conn)
    requires Conserved(c) && c.queue == []
    ensures |c.done| == |c.sent|
  {
  }

  /** What the device has executed for the relay is the beginning of what the host's log makes
      it see, and all of it when nothing is under way. */
  lemma RelayedInOrder(addr: bv8, s: System)
    requires Sound(addr, s)
    ensures Of(s.device.log, RELAY) <= Relayed(addr, s.host.log)
    ensures Delivered(s) ==> Of(s.device.log, RELAY) == Relayed(addr, s.host.log)
  {
    var c := s.device.conns[RELAY];
    assert Conserved(c) && Of(s.device.log, RELAY) == c.done;
    assert c.done <= Requests(c.sent);
    if Delivered(s) {
      EmptyQueue(c);
      AllDone(c);
      assert Requests(c.sent) + [] == Requests(c.sent);
    }
  }

  // ------------------------------------------------ what the display is told

  /** What a request of a host client means on the display. */
  function Meant(r: Request): seq<D.Call> {
    match r
    case PrintReq(_, str, line, pos) => [D.Print(Take(CString(str), 16), line, pos)]
    case ClearReq(_) => [D.Clear]
    case BacklightReq(_, enable) => [D.Backlight(enable != 0)]
    case GetBtnStateReq(_, _) => []
  }

  /** What a log of the host means on the display of this device. */
  function MeantAll(addr: bv8, log: seq<Entry>): seq<D.Call> {
    if log == [] then []
    else
      var r := log[|log| - 1].req;
      MeantAll(addr, log[..|log| - 1]) + if GoesTo(addr, r) then Meant(r) else []
  }

  /** The device acts on a relayed request as its sender meant it, whatever lies in memory. */
  lemma ReencodedMeans(r: Request, beyond: Beyond)
    requires !r.GetBtnStateReq?
    ensures DisplayCalls(Reencode(r), beyond) == Meant(r)
  {
    RelayMeaning(r);
  }

  /** What requests do on a display, one after the other. */
  function Shown(rs: seq<Request>): seq<D.Call> {
    if rs == [] then [] else Shown(rs[..|rs| - 1]) + DisplayCalls(rs[|rs| - 1], [0])
  }

  lemma ShownOneMore(rs: seq<Request>, r: Request)
    ensures Shown(rs + [r]) == Shown(rs) + DisplayCalls(r, [0])
  {
    assert (rs + [r])[..|rs|] == rs;
  }

  /** Every entry of the host's log counts, once and in its place. */
  lemma LogOneMore(addr: bv8, log: seq<Entry>, e: Entry)
    ensures Relayed(addr, []) == [] && MeantAll(addr, []) == []
    ensures Relayed(addr, log + [e]) ==
            Relayed(addr, log) + if e.req.addr == addr && !e.req.GetBtnStateReq? then [Reencode(e.req)] else []
    ensures MeantAll(addr, log + [e]) ==
            MeantAll(addr, log) + if e.req.addr == addr then Meant(e.req) else []
  {
    assert (log + [e])[..|log|] == log;
  }

  lemma {:induction false} RelayedShows(addr: bv8, log: seq<Entry>)
    ensures Shown(Relayed(addr, log)) == MeantAll(addr, log)
  {
    if log != [] {
      var before, r := log[..|log| - 1], log[|log| - 1].req;
      RelayedShows(addr, before);
      if GoesTo(addr, r) {
        ShownOneMore(Relayed(addr, before), Reencode(r));
        ReencodedMeans(r, [0]);
      } else {
        assert Relayed(addr, before) + [] == Relayed(addr, before) && MeantAll(addr, before) + [] == MeantAll(addr, before);
      }
    }
  }

  /** The first k relayed requests are those of a beginning of the log. */
  lemma {:induction false} RelayedPrefix(addr: bv8, log: seq<Entry>, k: nat) returns (n: nat)
    requires k <= |Relayed(addr, log)|
    ensures n <= |log| && Relayed(addr, log[..n]) == Relayed(addr, log)[..k]
  {
    if k == |Relayed(addr, log)| {
      n := |log|;
      assert log[..n] == log;
    } else {
      var before := log[..|log| - 1];
      n := RelayedPrefix(addr, before, k);
      assert before[..n] == log[..n];
    }
  }

  /** What a request shows does not depend on memory. */
  ghost predicate MemoryFree(r: Request) {
    forall beyond: Beyond :: DisplayCalls(r, beyond) == DisplayCalls(r, [0])
  }

  ghost predicate AllMemoryFree(rs: seq<Request>) {
    forall i :: 0 <= i < |rs| ==> MemoryFree(rs[i])
  }

  lemma ReencodedMemoryFree(r: Request)
    requires !r.GetBtnStateReq?
    ensures MemoryFree(Reencode(r))
  {
    forall beyond: Beyond ensures DisplayCalls(Reencode(r), beyond) == DisplayCalls(Reencode(r), [0]) {
      ReencodedMeans(r, beyond);
      ReencodedMeans(r, [0]);
    }
  }

  /** Relayed requests are terminated. */
  lemma {:induction false} RelayedMemoryFree(addr: bv8, log: seq<Entry>)
    ensures AllMemoryFree(Relayed(addr, log))
  {
    if log != [] {
      var r := log[|log| - 1].req;
      RelayedMemoryFree(addr, log[..|log| - 1]);
      if GoesTo(addr, r) {
        ReencodedMemoryFree(r);
      }
    }
  }

  /** The device's other clients ask for buttons only. */
  ghost predicate OnlyRelayPrints(device: State) {
    forall i :: 0 <= i < |device.log| ==> device.log[i].id == RELAY || device.log[i].req.GetBtnStateReq?
  }

  /** Then its display calls are those of the relay's requests. */
  lemma {:induction false} RelayShows(log: seq<Entry>, rs: seq<Request>)
    requires forall i :: 0 <= i < |log| ==> log[i].id == RELAY || log[i].req.GetBtnStateReq?
    requires Of(log, RELAY) <= rs && AllMemoryFree(rs)
    ensures CallsOf(log) == Shown(Of(log, RELAY))
  {
    if log != [] {
      var before, last := log[..|log| - 1], log[|log| - 1];
      RelayShows(before, rs);
      if last.id == RELAY {
        assert MemoryFree(rs[|Of(before, RELAY)|]) && rs[|Of(before, RELAY)|] == last.req;
        ShownOneMore(Of(before, RELAY), last.req);
      } else {
        assert last.req.GetBtnStateReq?;
        assert CallsOf(before) + [] == CallsOf(before) && Of(before, RELAY) + [] == Of(before, RELAY);
      }
    }
  }

  /** The whole system, any number of clients on either side and every interleaving of their
      steps with those of both daemons and the relay: the display's bus carries whole requests
      in the order of the device's log; those of the relay are the beginning of what the
      host's log makes this device see; and the host's log is a merge of its clients'
      requests, each client's in its own order. */
  lemma EveryRunComposes(addr: bv8, moves: seq<Move>)
    requires Happens(addr, BOOTED, moves)
    ensures var s := Then(addr, BOOTED, moves);
            && s.device.bus == D.Traces(CallsOf(s.device.log))
            && Of(s.device.log, RELAY) <= Relayed(addr, s.host.log)
            && (Delivered(s) ==> Of(s.device.log, RELAY) == Relayed(addr, s.host.log))
            && (forall e :: e in s.host.log ==> e.id in s.host.conns)
            && (forall id :: id in s.host.conns ==>
                  Of(s.host.log, id) == s.host.conns[id].done <= Requests(s.host.conns[id].sent))
  {
    var s := Then(addr, BOOTED, moves);
    BootedSound(addr);
    RunKeepsSound(addr, BOOTED, moves);
    RelayedInOrder(addr, s);
    BusIsTraces(s.device.log);
    LogIsMerge(s.host);
  }

  /** If no local client of the device prints: the bus carries what a beginning of the host's
      log means, text by text cut to 16 characters; all of it when nothing is under way. */
  lemma HostClientsShow(addr: bv8, moves: seq<Move>) returns (n: nat)
    requires Happens(addr, BOOTED, moves) && OnlyRelayPrints(Then(addr, BOOTED, moves).device)
    ensures var s := Then(addr, BOOTED, moves);
            && n <= |s.host.log|
            && s.device.bus == D.Traces(MeantAll(addr, s.host.log[..n]))
            && (Delivered(s) ==> n == |s.host.log|)
  {
    var s := Then(addr, BOOTED, moves);
    EveryRunComposes(addr, moves);
    n := PrefixShown(addr, s.host.log, s.device.log, Delivered(s));
  }

  lemma PrefixShown(addr: bv8, hostLog: seq<Entry>, log: seq<Entry>, all: bool) returns (n: nat)
    requires forall i :: 0 <= i < |log| ==> log[i].id == RELAY || log[i].req.GetBtnStateReq?
    requires Of(log, RELAY) <= Relayed(addr, hostLog) && (all ==> Of(log, RELAY) == Relayed(addr, hostLog))
    ensures n <= |hostLog| && CallsOf(log) == MeantAll(addr, hostLog[..n]) && (all ==> n == |hostLog|)
  {
    RelayedMemoryFree(addr, hostLog);
    RelayShows(log, Relayed(addr, hostLog));
    var done := Of(log, RELAY);
    n := |hostLog|;
    assert hostLog[..n] == hostLog;
    if !all {
      n := RelayedPrefix(addr, hostLog, |done|);
      assert done == Relayed(addr, hostLog)[..|done|];
    }
    RelayedShows(addr, hostLog[..n]);
  }

  lemma {:induction false} MeantValid(addr: bv8, log: seq<Entry>)
    requires forall i :: 0 <= i < |log| ==> Displayable(log[i].req)
    ensures forall c :: c in MeantAll(addr, log) ==> L.Valid(c)
  {
    if log != [] {
      MeantValid(addr, log[..|log| - 1]);
      assert Displayable(log[|log| - 1].req);
    }
  }

  /** And so does the display itself, from any power-up state, if the prints name cells. */
  lemma HostClientsScreen(addr: bv8, moves: seq<Move>, noise: nat -> H.Noise, t: nat, m: H.Machine)
    requires Happens(addr, BOOTED, moves) && OnlyRelayPrints(Then(addr, BOOTED, moves).device)
    requires var s := Then(addr, BOOTED, moves);
             Delivered(s) && forall i :: 0 <= i < |s.host.log| ==> Displayable(s.host.log[i].req)
    ensures var s := Then(addr, BOOTED, moves);
            var m' := H.Run(D.Commands(D.SETUP) + s.device.bus, noise, t, m);
            && (forall c :: c in MeantAll(addr, s.host.log) ==> L.Valid(c))
            && L.Ready(m')
            && L.View(m') == L.ApplyAll(MeantAll(addr, s.host.log), L.Screen(H.BlankRam(), 0, true))
  {
    var log := Then(addr, BOOTED, moves).host.log;
    var n := HostClientsShow(addr, moves);
    assert log[..|log|] == log;
    MeantValid(addr, log);
    L.SetupThenCalls(MeantAll(addr, log), noise, t, m);
  }
}
