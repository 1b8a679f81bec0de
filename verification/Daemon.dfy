/** The daemon's event loop as a transition system: clients connect, write whole requests and
    hang up at any time, also while a handler runs; epoll reports readiness in batches; each event handles at most one
    request; hangup closes. */
module Daemon {
  import opened Seqs
  import opened Wire
  import opened Stream
  import opened Cmds
  import opened Hal

  const EPOLL_MAX_EVENTS: nat := 10

  type ConnId = nat

  datatype Phase = Waiting | Registered | Closed

  /** A connection. The last two fields are its history: the requests the client has written
      and those the daemon has handed to the HAL. */
  datatype Conn = Conn(queue: seq<bv8>, hungUp: bool, phase: Phase, sent: seq<Frame>, done: seq<Request>)

  datatype Event = Listen | Ready(id: ConnId, input: bool, hangup: bool)

  /** An executed request, with the memory a print's text was read on into. */
  datatype Entry = Entry(id: ConnId, req: Request, beyond: Beyond)

  /** What one handler call meets: its reads, the buttons, the memory beyond its buffers, and
      the requests its client writes while it runs. */
  datatype Service = Service(turns: Schedule, buttons: Buttons, beyond: Beyond, arriving: seq<Frame>)

  datatype State = State(
    conns: map<ConnId, Conn>,
    backlog: seq<ConnId>,
    batch: seq<Event>,      // events of the current epoll_wait not yet processed
    log: seq<Entry>,        // requests executed, by all connections
    bus: seq<bv8>,          // what the device HAL has written
    alive: bool)            // no signal has ended the process

  datatype Step =
    | Connect(id: ConnId)
    | Send(id: ConnId, frame: Frame)
    | HangUp(id: ConnId)
    | Poll(events: seq<Event>)
    | Dispatch(service: Service)

  const START: State := State(map[], [], [], [], [], true)

  // -------------------------------------------------------------- steps

  /** Readiness as level-triggered epoll reports it: unread bytes or end of file are input. */
  predicate Reports(s: State, e: Event) {
    match e
    case Listen => s.backlog != []
    case Ready(id, input, hangup) =>
      && id in s.conns && s.conns[id].phase.Registered?
      && input == (s.conns[id].queue != [] || s.conns[id].hungUp)
      && hangup == s.conns[id].hungUp
      && input
  }

  predicate SameSource(e: Event, e': Event) {
    (e.Listen? && e'.Listen?) || (e.Ready? && e'.Ready? && e.id == e'.id)
  }

  ghost predicate Enabled(s: State, step: Step) {
    match step
    case Connect(id) => id !in s.conns
    case Send(id, _) => id in s.conns && !s.conns[id].hungUp
    case HangUp(id) => id in s.conns && !s.conns[id].hungUp
    case Poll(events) =>
      && s.alive && s.batch == [] && |events| <= EPOLL_MAX_EVENTS
      && (forall e :: e in events ==> Reports(s, e))
      && (forall i, j :: 0 <= i < j < |events| ==> !SameSource(events[i], events[j]))
    case Dispatch(service) =>
      s.alive && s.batch != [] && Prompt(service.turns) && Arrives(s.conns, s.batch[0], service)
  }

  /** What reaches the socket during the handler call is whole requests of its client, which
      has not gone. */
  ghost predicate Arrives(conns: map<ConnId, Conn>, e: Event, service: Service) {
    match e
    case Listen => service.arriving == []
    case Ready(id, input, hangup) =>
      && id in conns
      && (conns[id].hungUp ==> service.arriving == [])
      && Handle(conns[id].queue, service.turns, 0).arrived == EncodeAll(service.arriving)
  }

  /** The daemon alone has moved: no client has written, hung up or connected. */
  ghost predicate ByDaemon(s: State, s': State) {
    && s'.conns.Keys == s.conns.Keys
    && forall id :: id in s.conns ==> MovedOn(s.conns[id], s'.conns[id])
  }

  /** What the daemon can do to a connection: execute and close. */
  predicate MovedOn(c: Conn, c': Conn) {
    && c'.sent == c.sent && c'.hungUp == c.hungUp
    && |c.done| <= |c'.done| && (c.phase.Closed? ==> c'.phase.Closed?)
  }

  /** daemon_ipc_con_add: accept one waiting connection, if there is one. */
  function ConAdd(s: State): (s': State)
    ensures s'.batch == s.batch && ByDaemon(s, s')
  {
    if s.backlog == [] || s.backlog[0] !in s.conns || !s.conns[s.backlog[0]].phase.Waiting? then s
    else
      var id := s.backlog[0];
      s.(conns := s.conns[id := s.conns[id].(phase := Registered)], backlog := s.backlog[1..])
  }

  /** A reply written to a client that has gone raises SIGPIPE, which nothing handles. */
  predicate Fatal(c: Conn, buttons: Buttons, r: Request) {
    c.hungUp && ReplyBytes(buttons, r) != []
  }

  /** daemon_ipc_con_in: one call of the request handler. */
  function ConIn(s: State, id: ConnId, service: Service): (s': State)
    requires id in s.conns
    ensures s'.batch == s.batch && s'.backlog == s.backlog && s'.conns.Keys == s.conns.Keys
    ensures service.arriving == [] ==> ByDaemon(s, s')
  {
    var h := Handle(s.conns[id].queue, service.turns, 0);
    var c := s.conns[id].(queue := h.queue, sent := s.conns[id].sent + service.arriving);
    match h.outcome
    case Executes(r) =>
      State(s.conns[id := c.(done := c.done + [r])], s.backlog, s.batch,
            s.log + [Entry(id, r, service.beyond)], s.bus + BusOutput(r, service.beyond),
            s.alive && !Fatal(c, service.buttons, r))
    case _ => s.(conns := s.conns[id := c])
  }

  /** daemon_ipc_con_close. Bytes still queued are gone with the connection. */
  function ConClose(s: State, id: ConnId): (s': State)
    requires id in s.conns
    ensures s'.batch == s.batch && ByDaemon(s, s')
  {
    s.(conns := s.conns[id := s.conns[id].(phase := Closed)])
  }

  /** The body of the event loop. A daemon that has been ended closes nothing. */
  function Process(s: State, e: Event, service: Service): (s': State)
    ensures s'.batch == s.batch && (service.arriving == [] ==> ByDaemon(s, s'))
  {
    match e
    case Listen => ConAdd(s)
    case Ready(id, input, hangup) =>
      if id !in s.conns then s else
      var s1 := if input then ConIn(s, id, service) else s;
      if hangup && s1.alive then ConClose(s1, id) else s1
  }

  // ---------------------------------------------------------- invariant

  /** Requests sent = requests executed ++ requests still buffered, in order. */
  ghost predicate Conserved(c: Conn) {
    && |c.done| <= |c.sent|
    && c.done == Requests(c.sent)[..|c.done|]
    && c.queue == EncodeAll(c.sent[|c.done|..])
  }

  /** A connection is closed only after its client hung up, and one that sent at most one
      request has had it executed by then. */
  ghost predicate ClosedProperly(c: Conn) {
    c.phase.Closed? ==> c.hungUp && (|c.sent| <= 1 ==> c.done == Requests(c.sent))
  }

  ghost predicate AllSound(conns: map<ConnId, Conn>) {
    forall id :: id in conns ==> Conserved(conns[id]) && ClosedProperly(conns[id])
  }

  /** An event still to be processed speaks of a registered connection with something to
      read or a client that has gone, and a hangup in it is real. */
  ghost predicate Current(conns: map<ConnId, Conn>, e: Event) {
    e.Ready? ==>
      && e.id in conns && conns[e.id].phase.Registered? && e.input
      && (e.hangup ==> conns[e.id].hungUp)
      && (conns[e.id].queue != [] || conns[e.id].hungUp)
  }

  ghost predicate BatchCurrent(conns: map<ConnId, Conn>, batch: seq<Event>) {
    && (forall i :: 0 <= i < |batch| ==> Current(conns, batch[i]))
    && (forall i, j :: 0 <= i < j < |batch| ==> !SameSource(batch[i], batch[j]))
  }

  ghost predicate BacklogWaits(conns: map<ConnId, Conn>, backlog: seq<ConnId>) {
    && (forall i :: 0 <= i < |backlog| ==> backlog[i] in conns && conns[backlog[i]].phase.Waiting?)
    && (forall i, j :: 0 <= i < j < |backlog| ==> backlog[i] != backlog[j])
    && (forall id :: id in conns && conns[id].phase.Waiting? ==> id in backlog)
  }

  /** The requests of one connection in the log, in order. */
  function Of(log: seq<Entry>, id: ConnId): seq<Request> {
    if log == [] then []
    else
      var last := log[|log| - 1];
      Of(log[..|log| - 1], id) + if last.id == id then [last.req] else []
  }

  /** The log is a merge of what the connections have had executed. */
  ghost predicate LogMerges(conns: map<ConnId, Conn>, log: seq<Entry>) {
    forall id: ConnId :: Of(log, id) == if id in conns then conns[id].done else []
  }

  /** The bus traffic of a log: whole requests, one after the other. */
  function BusOf(log: seq<Entry>): seq<bv8> {
    if log == [] then [] else BusOf(log[..|log| - 1]) + BusOutput(log[|log| - 1].req, log[|log| - 1].beyond)
  }

  ghost predicate Inv(s: State) {
    && AllSound(s.conns)
    && BatchCurrent(s.conns, s.batch)
    && BacklogWaits(s.conns, s.backlog)
    && LogMerges(s.conns, s.log)
    && s.bus == BusOf(s.log)
  }

  ghost function Do(s: State, step: Step): State
    requires Enabled(s, step)
  {
    match step
    case Connect(id) =>
      s.(conns := s.conns[id := Conn([], false, Waiting, [], [])], backlog := s.backlog + [id])
    case Send(id, frame) =>
      var c := s.conns[id];
      s.(conns := s.conns[id := c.(queue := c.queue + Encode(frame), sent := c.sent + [frame])])
    case HangUp(id) => s.(conns := s.conns[id := s.conns[id].(hungUp := true)])
    case Poll(events) => s.(batch := events)
    case Dispatch(service) => Process(s.(batch := s.batch[1..]), s.batch[0], service)
  }

  // -------------------------------------------------- one step at a time

  lemma SendConserves(c: Conn, fs: seq<Frame>)
    requires Conserved(c)
    ensures Conserved(c.(queue := c.queue + EncodeAll(fs), sent := c.sent + fs))
  {
    var n := |c.done|;
    DropWithin(c.sent, fs, n);
    EncodeAllConcat(c.sent[n..], fs);
    RequestsKept(c.sent, fs, n);
  }

  lemma RequestsKept(a: seq<Frame>, b: seq<Frame>, n: nat)
    requires n <= |a|
    ensures Requests(a + b)[..n] == Requests(a)[..n]
  {
  }

  /** One handler call on a conserved connection executes its oldest buffered request, if it
      has one, whatever arrives meanwhile; otherwise it does nothing. */
  lemma HandleConserved(c: Conn, turns: Schedule, arriving: seq<Frame>)
    requires Conserved(c) && Prompt(turns)
    requires Handle(c.queue, turns, 0).arrived == EncodeAll(arriving)
    requires |c.done| == |c.sent| ==> arriving == []
    ensures var h := Handle(c.queue, turns, 0);
            if |c.done| < |c.sent|
            then h.outcome == Executes(c.sent[|c.done|].req)
              && Conserved(c.(queue := h.queue, sent := c.sent + arriving, done := c.done + [c.sent[|c.done|].req]))
            else h.outcome.Idle? && h.queue == c.queue
  {
    if |c.done| < |c.sent| {
      HandleOldest(c, turns, arriving);
    } else {
      assert c.queue == [];
      ReceiveConserves([], HEAD_SIZE, turns, 0);
      assert Receive([], HEAD_SIZE, turns, 0).arrived == [];
    }
  }

  lemma HandleOldest(c: Conn, turns: Schedule, arriving: seq<Frame>)
    requires Conserved(c) && Prompt(turns) && |c.done| < |c.sent|
    requires Handle(c.queue, turns, 0).arrived == EncodeAll(arriving)
    ensures var h := Handle(c.queue, turns, 0);
            var f := c.sent[|c.done|];
            h.outcome == Executes(f.req)
            && Conserved(c.(queue := h.queue, sent := c.sent + arriving, done := c.done + [f.req]))
  {
    var n := |c.done|;
    OldestFirst(c);
    HandleFrame(c.sent[n], EncodeAll(c.sent[n + 1..]), turns, 0);
    SendConserves(c.(queue := EncodeAll(c.sent[n + 1..]), done := c.done + [c.sent[n].req]), arriving);
  }

  lemma OldestFirst(c: Conn)
    requires Conserved(c) && |c.done| < |c.sent|
    ensures var n := |c.done|;
            && c.queue == Encode(c.sent[n]) + EncodeAll(c.sent[n + 1..])
            && Conserved(c.(queue := EncodeAll(c.sent[n + 1..]), done := c.done + [c.sent[n].req]))
  {
    var n := |c.done|;
    assert c.sent[n..][1..] == c.sent[n + 1..];
    assert Requests(c.sent)[..n + 1] == Requests(c.sent)[..n] + [c.sent[n].req];
  }

  lemma LogGrows(log: seq<Entry>, e: Entry, id: ConnId)
    ensures Of(log + [e], id) == Of(log, id) + if e.id == id then [e.req] else []
    ensures BusOf(log + [e]) == BusOf(log) + BusOutput(e.req, e.beyond)
  {
    assert (log + [e])[..|log|] == log;
  }

  // What a new value c for connection id does to each part of the invariant.

  lemma SoundAfter(conns: map<ConnId, Conn>, id: ConnId, c: Conn)
    requires AllSound(conns) && Conserved(c) && ClosedProperly(c)
    ensures AllSound(conns[id := c])
  {
  }

  ghost predicate Mentions(batch: seq<Event>, id: ConnId) {
    exists e :: e in batch && e.Ready? && e.id == id
  }

  lemma BatchAfter(conns: map<ConnId, Conn>, batch: seq<Event>, id: ConnId, c: Conn)
    requires BatchCurrent(conns, batch)
    requires Mentions(batch, id) ==>
      && id in conns && c.phase == conns[id].phase
      && (conns[id].hungUp ==> c.hungUp) && (conns[id].queue != [] ==> c.queue != [])
    ensures BatchCurrent(conns[id := c], batch)
  {
    forall i | 0 <= i < |batch| ensures Current(conns[id := c], batch[i]) {
      assert Current(conns, batch[i]) && batch[i] in batch;
    }
  }

  lemma BacklogAfter(conns: map<ConnId, Conn>, backlog: seq<ConnId>, id: ConnId, c: Conn)
    requires BacklogWaits(conns, backlog)
    requires id in backlog <==> c.phase.Waiting?
    ensures BacklogWaits(conns[id := c], backlog)
  {
  }

  lemma BacklogAfterConnect(conns: map<ConnId, Conn>, backlog: seq<ConnId>, id: ConnId, c: Conn)
    requires BacklogWaits(conns, backlog) && id !in conns && c.phase.Waiting?
    ensures BacklogWaits(conns[id := c], backlog + [id])
  {
    forall k | k in conns[id := c] && conns[id := c][k].phase.Waiting? ensures k in backlog + [id] {
      if k != id { assert k in backlog; }
    }
  }

  lemma BacklogAfterAccept(conns: map<ConnId, Conn>, backlog: seq<ConnId>, c: Conn)
    requires BacklogWaits(conns, backlog) && backlog != [] && c.phase.Registered?
    ensures BacklogWaits(conns[backlog[0] := c], backlog[1..])
  {
    var rest := backlog[1..];
    forall k | k in conns[backlog[0] := c] && conns[backlog[0] := c][k].phase.Waiting? ensures k in rest {
      var i :| 0 <= i < |backlog| && backlog[i] == k;
      assert rest[i - 1] == k;
    }
  }

  lemma LogAfter(conns: map<ConnId, Conn>, log: seq<Entry>, id: ConnId, c: Conn)
    requires LogMerges(conns, log)
    requires c.done == if id in conns then conns[id].done else []
    ensures LogMerges(conns[id := c], log)
  {
  }

  lemma RegisteredNotInBacklog(s: State, id: ConnId)
    requires Inv(s) && (id in s.conns ==> !s.conns[id].phase.Waiting?)
    ensures id !in s.backlog
  {
  }

  /** A connection that moves on under its client's hand. */
  lemma ClientMoveKeepsInv(s: State, id: ConnId, c: Conn)
    requires Inv(s) && id in s.conns
    requires Conserved(c) && ClosedProperly(c)
    requires c.phase == s.conns[id].phase && c.done == s.conns[id].done
    requires s.conns[id].hungUp ==> c.hungUp
    requires s.conns[id].queue != [] ==> c.queue != []
    ensures Inv(s.(conns := s.conns[id := c]))
  {
    SoundAfter(s.conns, id, c);
    BatchAfter(s.conns, s.batch, id, c);
    BacklogAfter(s.conns, s.backlog, id, c);
    LogAfter(s.conns, s.log, id, c);
  }

  lemma ConnectKeepsInv(s: State, id: ConnId)
    requires Inv(s) && id !in s.conns
    ensures Inv(Do(s, Connect(id)))
  {
    var c := Conn([], false, Waiting, [], []);
    SoundAfter(s.conns, id, c);
    assert !Mentions(s.batch, id) by {
      forall e | e in s.batch && e.Ready? ensures e.id != id { assert Current(s.conns, e); }
    }
    BatchAfter(s.conns, s.batch, id, c);
    LogAfter(s.conns, s.log, id, c);
    BacklogAfterConnect(s.conns, s.backlog, id, c);
  }

  lemma ClientStepKeepsInv(s: State, step: Step)
    requires Inv(s) && Enabled(s, step) && (step.Connect? || step.Send? || step.HangUp?)
    ensures Inv(Do(s, step))
  {
    match step
    case Connect(id) => ConnectKeepsInv(s, id);
    case Send(id, frame) =>
      var c := s.conns[id];
      SendConserves(c, [frame]);
      EncodeOne(frame);
      ClientMoveKeepsInv(s, id, c.(queue := c.queue + Encode(frame), sent := c.sent + [frame]));
    case HangUp(id) =>
      ClientMoveKeepsInv(s, id, s.conns[id].(hungUp := true));
  }

  lemma PollKeepsInv(s: State, events: seq<Event>)
    requires Inv(s) && Enabled(s, Poll(events))
    ensures Inv(Do(s, Poll(events))) && |events| <= 10
  {
    forall i | 0 <= i < |events| ensures Current(s.conns, events[i]) {
      assert Reports(s, events[i]);
    }
  }

  /** Up to ten connections and the listener can be reported at once. */
  lemma PollsTen(s: State, events: seq<Event>)
    requires s.alive && s.batch == [] && |events| == 10
    requires forall e :: e in events ==> Reports(s, e)
    requires forall i, j :: 0 <= i < j < |events| ==> !SameSource(events[i], events[j])
    ensures Enabled(s, Poll(events))
  {
  }

  /** The rest of a batch does not mention the source of its first event again. */
  lemma RestOfBatch(s: State)
    requires Inv(s) && s.batch != []
    ensures Inv(s.(batch := s.batch[1..])) && Current(s.conns, s.batch[0])
    ensures s.batch[0].Ready? ==> !Mentions(s.batch[1..], s.batch[0].id)
  {
  }

  lemma AcceptKeepsInv(s: State)
    requires Inv(s)
    ensures Inv(ConAdd(s))
  {
    if s.backlog != [] {
      var id := s.backlog[0];
      var c := s.conns[id].(phase := Registered);
      assert Conserved(c) && ClosedProperly(c);
      SoundAfter(s.conns, id, c);
      assert !Mentions(s.batch, id) by {
        forall e | e in s.batch && e.Ready? ensures e.id != id { assert Current(s.conns, e); }
      }
      BatchAfter(s.conns, s.batch, id, c);
      BacklogAfterAccept(s.conns, s.backlog, c);
      LogAfter(s.conns, s.log, id, c);
    }
  }

  /** Handling a request on a registered connection that no pending event mentions. */
  lemma ConInKeepsInv(s: State, e: Event, service: Service)
    requires Inv(s) && Current(s.conns, e) && e.Ready? && !Mentions(s.batch, e.id)
    requires Prompt(service.turns) && Arrives(s.conns, e, service)
    ensures Inv(ConIn(s, e.id, service))
  {
    var c := s.conns[e.id];
    NothingArrives(s, e, service);
    if |c.done| < |c.sent| {
      ConInOldest(s, e.id, service);
    } else {
      HandleConserved(c, service.turns, []);
      ConInIdle(s, e.id, service);
    }
  }

  lemma ConInOldest(s: State, id: ConnId, service: Service)
    requires Inv(s) && id in s.conns && s.conns[id].phase.Registered? && !Mentions(s.batch, id)
    requires Conserved(s.conns[id]) && |s.conns[id].done| < |s.conns[id].sent| && Prompt(service.turns)
    requires Handle(s.conns[id].queue, service.turns, 0).arrived == EncodeAll(service.arriving)
    ensures Inv(ConIn(s, id, service))
  {
    var c := s.conns[id];
    var r := c.sent[|c.done|].req;
    HandleOldest(c, service.turns, service.arriving);
    var queue := Handle(c.queue, service.turns, 0).queue;
    var c' := c.(queue := queue, sent := c.sent + service.arriving, done := c.done + [r]);
    ConInExecutes(s, id, service, r, c');
    ConInUpdates(s, id, c', Entry(id, r, service.beyond), s.alive && !Fatal(c, service.buttons, r));
  }

  lemma ConInExecutes(s: State, id: ConnId, service: Service, r: Request, c': Conn)
    requires id in s.conns && Handle(s.conns[id].queue, service.turns, 0).outcome == Executes(r)
    requires var c := s.conns[id];
             var queue := Handle(c.queue, service.turns, 0).queue;
             c' == c.(queue := queue, sent := c.sent + service.arriving, done := c.done + [r])
    ensures ConIn(s, id, service) ==
            State(s.conns[id := c'], s.backlog, s.batch, s.log + [Entry(id, r, service.beyond)],
                  s.bus + BusOutput(r, service.beyond), s.alive && !Fatal(s.conns[id], service.buttons, r))
  {
  }

  lemma ConInIdle(s: State, id: ConnId, service: Service)
    requires id in s.conns && service.arriving == []
    requires var h := Handle(s.conns[id].queue, service.turns, 0);
             h.outcome.Idle? && h.queue == s.conns[id].queue
    ensures ConIn(s, id, service) == s
  {
    var c := s.conns[id];
    assert c.sent + [] == c.sent;
    assert s.conns[id := c] == s.conns;
  }

  /** A reported connection without a request in its queue is one whose client has gone. */
  lemma NothingArrives(s: State, e: Event, service: Service)
    requires Inv(s) && Current(s.conns, e) && e.Ready? && Arrives(s.conns, e, service)
    ensures var c := s.conns[e.id];
            Conserved(c) && (|c.done| == |c.sent| || e.hangup ==> service.arriving == [])
  {
    assert Conserved(s.conns[e.id]);
  }

  lemma ConInUpdates(s: State, id: ConnId, c: Conn, e: Entry, alive: bool)
    requires Inv(s) && id in s.conns && s.conns[id].phase.Registered? && !Mentions(s.batch, id)
    requires Conserved(c) && c.phase.Registered? && e.id == id && c.done == s.conns[id].done + [e.req]
    ensures Inv(State(s.conns[id := c], s.backlog, s.batch, s.log + [e], s.bus + BusOutput(e.req, e.beyond), alive))
  {
    SoundAfter(s.conns, id, c);
    BatchAfter(s.conns, s.batch, id, c);
    RegisteredNotInBacklog(s, id);
    BacklogAfter(s.conns, s.backlog, id, c);
    forall k: ConnId ensures Of(s.log + [e], k) == Of(s.log, k) + if k == id then [e.req] else [] {
      LogGrows(s.log, e, k);
    }
    LogGrows(s.log, e, id);
  }

  lemma ConCloseKeepsInv(s: State, id: ConnId)
    requires Inv(s) && id in s.conns && s.conns[id].phase.Registered? && !Mentions(s.batch, id)
    requires s.conns[id].hungUp && (|s.conns[id].sent| <= 1 ==> s.conns[id].done == Requests(s.conns[id].sent))
    ensures Inv(ConClose(s, id))
  {
    var c := s.conns[id].(phase := Closed);
    assert Conserved(c) && ClosedProperly(c);
    SoundAfter(s.conns, id, c);
    BatchAfter(s.conns, s.batch, id, c);
    RegisteredNotInBacklog(s, id);
    BacklogAfter(s.conns, s.backlog, id, c);
    LogAfter(s.conns, s.log, id, c);
  }

  /** What one call does to the connection it is made on, and to the daemon. */
  lemma ConInOnConn(s: State, id: ConnId, service: Service)
    requires id in s.conns && Conserved(s.conns[id]) && Prompt(service.turns)
    requires Handle(s.conns[id].queue, service.turns, 0).arrived == EncodeAll(service.arriving)
    requires |s.conns[id].done| == |s.conns[id].sent| ==> service.arriving == []
    ensures var c, s' := s.conns[id], ConIn(s, id, service);
            var c' := s'.conns[id];
            && s'.alive == (s.alive && !KilledBy(c, service.buttons))
            && c'.phase == c.phase && c'.hungUp == c.hungUp && c'.sent == c.sent + service.arriving
            && |c'.done| == if |c.done| < |c.sent| then |c.done| + 1 else |c.done|
  {
    HandleConserved(s.conns[id], service.turns, service.arriving);
  }

  /** The client has gone and its oldest request not yet executed is one that is answered. */
  predicate KilledBy(c: Conn, buttons: Buttons) {
    |c.done| < |c.sent| && Fatal(c, buttons, c.sent[|c.done|].req)
  }

  lemma AllDone(c: Conn)
    requires Conserved(c) && |c.done| == |c.sent|
    ensures c.done == Requests(c.sent)
  {
    assert Requests(c.sent)[..|c.sent|] == Requests(c.sent);
  }

  lemma ReadyKeepsInv(s: State, e: Event, service: Service)
    requires Inv(s) && Prompt(service.turns) && e.Ready? && Current(s.conns, e)
    requires Arrives(s.conns, e, service) && !Mentions(s.batch, e.id)
    ensures Inv(Process(s, e, service))
  {
    var s1 := ConIn(s, e.id, service);
    ConInKeepsInv(s, e, service);
    NothingArrives(s, e, service);
    ConInOnConn(s, e.id, service);
    if e.hangup {
      var c := s1.conns[e.id];
      assert Conserved(c);
      if |c.sent| <= 1 { AllDone(c); }
      ConCloseKeepsInv(s1, e.id);
    }
  }

  lemma DispatchKeepsInv(s: State, service: Service)
    requires Inv(s) && Enabled(s, Dispatch(service))
    ensures Inv(Do(s, Dispatch(service)))
  {
    RestOfBatch(s);
    ProcessKeepsInv(s.(batch := s.batch[1..]), s.batch[0], service);
  }

  lemma ProcessKeepsInv(s: State, e: Event, service: Service)
    requires Inv(s) && Prompt(service.turns) && Arrives(s.conns, e, service)
    requires Current(s.conns, e) && (e.Ready? ==> !Mentions(s.batch, e.id))
    ensures Inv(Process(s, e, service))
  {
    match e
    case Listen => AcceptKeepsInv(s);
    case Ready(_, _, _) => ReadyKeepsInv(s, e, service);
  }

  lemma DoneIff(c: Conn)
    requires Conserved(c)
    ensures c.done == Requests(c.sent) <==> |c.done| == |c.sent|
  {
    if |c.done| == |c.sent| { AllDone(c); }
  }

  lemma HangupEvent(s: State, id: ConnId, service: Service)
    requires s.alive && id in s.conns && Conserved(s.conns[id]) && Prompt(service.turns) && service.arriving == []
    requires Handle(s.conns[id].queue, service.turns, 0).arrived == []
    ensures var c, s' := s.conns[id], Process(s, Ready(id, true, true), service);
            var c' := s'.conns[id];
            && s'.alive == !KilledBy(c, service.buttons)
            && (s'.alive ==> c'.phase.Closed?) && c'.sent == c.sent
            && |c'.done| == if |c.done| < |c.sent| then |c.done| + 1 else |c.done|
  {
    ConInOnConn(s, id, service);
    var s1 := ConIn(s, id, service);
    assert ConClose(s1, id).conns[id] == s1.conns[id].(phase := Closed);
  }

  /** A close loses requests exactly when more than one was still buffered at the event. */
  lemma CloseLosesIff(s: State, service: Service)
    requires Inv(s) && Enabled(s, Dispatch(service)) && s.batch[0].Ready? && s.batch[0].hangup
    ensures var c, s' := s.conns[s.batch[0].id], Do(s, Dispatch(service));
            var c' := s'.conns[s.batch[0].id];
            && (s'.alive ==> c'.phase.Closed?) && c'.sent == c.sent
            && (c'.done == Requests(c'.sent) <==> |c.sent| - |c.done| <= 1)
  {
    var id := s.batch[0].id;
    assert Current(s.conns, s.batch[0]);
    assert Conserved(s.conns[id]) && service.arriving == [];
    HangupEvent(s.(batch := s.batch[1..]), id, service);
    DispatchKeepsInv(s, service);
    var c' := Do(s, Dispatch(service)).conns[id];
    assert Conserved(c');
    DoneIff(c');
  }

  /** Handling an event ends the daemon exactly when it is about a client that has gone and
      whose oldest request is a query that gets an answer. */
  lemma DispatchKillsIff(s: State, service: Service)
    requires Inv(s) && Enabled(s, Dispatch(service))
    ensures !Do(s, Dispatch(service)).alive <==>
            s.batch[0].Ready? && KilledBy(s.conns[s.batch[0].id], service.buttons)
  {
    var e := s.batch[0];
    assert Current(s.conns, e);
    if e.Ready? {
      NothingArrives(s, e, service);
      ConInOnConn(s.(batch := s.batch[1..]), e.id, service);
    }
  }

  // ------------------------------------------------------------ whole runs

  lemma StepKeepsInv(s: State, step: Step)
    requires Inv(s) && Enabled(s, step)
    ensures Inv(Do(s, step))
  {
    match step
    case Poll(events) => PollKeepsInv(s, events);
    case Dispatch(service) => DispatchKeepsInv(s, service);
    case _ => ClientStepKeepsInv(s, step);
  }

  lemma StartKeepsInv()
    ensures Inv(START)
  {
  }

  ghost predicate Runs(s: State, steps: seq<Step>)
    decreases |steps|
  {
    steps == [] || (Enabled(s, steps[0]) && Runs(Do(s, steps[0]), steps[1..]))
  }

  ghost function After(s: State, steps: seq<Step>): State
    requires Runs(s, steps)
    decreases |steps|
  {
    if steps == [] then s else After(Do(s, steps[0]), steps[1..])
  }

  lemma {:induction false} RunKeepsInv(s: State, steps: seq<Step>)
    requires Inv(s) && Runs(s, steps)
    ensures Inv(After(s, steps))
    decreases |steps|
  {
    if steps != [] {
      StepKeepsInv(s, steps[0]);
      RunKeepsInv(Do(s, steps[0]), steps[1..]);
    }
  }

  /** In every run, at every connection: requests sent = executed ++ still buffered; and if
      the connection has been closed on a client that sent at most one, it was executed. */
  lemma EveryRunConserves(steps: seq<Step>, id: ConnId)
    requires Runs(START, steps) && id in After(START, steps).conns
    ensures var c := After(START, steps).conns[id];
            && |c.done| <= |c.sent|
            && Requests(c.sent) == c.done + Requests(c.sent[|c.done|..])
            && c.queue == EncodeAll(c.sent[|c.done|..])
            && (c.phase.Closed? && |c.sent| <= 1 ==> c.done == Requests(c.sent))
            && Of(After(START, steps).log, id) == c.done
  {
    StartKeepsInv();
    RunKeepsInv(START, steps);
    var c := After(START, steps).conns[id];
    assert Conserved(c) && ClosedProperly(c);
    DoneThenBuffered(c);
  }

  lemma DoneThenBuffered(c: Conn)
    requires Conserved(c)
    ensures Requests(c.sent) == c.done + Requests(c.sent[|c.done|..])
  {
    assert Requests(c.sent[|c.done|..]) == Requests(c.sent)[|c.done|..];
    SplitAt(Requests(c.sent), |c.done|);
  }
}
