/** The event loop of the daemon on the device, step by step, against the transition system:
    every request goes through the handler and the display driver. */
module DaemonLoop {
  import opened Wire
  import opened Stream
  import opened Cmds
  import opened Hal
  import opened CmdsHandler
  import opened Daemon

  /** How one event comes to be handled: what clients do before it is looked at, and what the
      handler call meets. */
  datatype Visit = Visit(before: seq<Step>, service: Service)

  /** One turn of the outer loop: what clients do before epoll_wait returns, the events it
      returns, and the visit of each; of fewer if the daemon is ended among them. */
  datatype Round = Round(before: seq<Step>, events: seq<Event>, visits: seq<Visit>)

  function VisitPlan(visit: Visit): seq<Step> {
    visit.before + [Dispatch(visit.service)]
  }

  function BatchPlan(visits: seq<Visit>): seq<Step> {
    if visits == [] then [] else VisitPlan(visits[0]) + BatchPlan(visits[1..])
  }

  function RunPlan(rounds: seq<Round>): seq<Step> {
    if rounds == [] then []
    else rounds[0].before + ([Poll(rounds[0].events)] + (BatchPlan(rounds[0].visits) + RunPlan(rounds[1..])))
  }

  lemma PlanOfOneEvent(visits: seq<Visit>, rest: seq<Step>)
    requires visits != []
    ensures var later := BatchPlan(visits[1..]) + rest;
            BatchPlan(visits) + rest == visits[0].before + ([Dispatch(visits[0].service)] + later)
  {
  }

  /** A plan has all rounds in it, each with its own steps, its wait and all its visits. */
  lemma {:induction false} PlanConcat(a: seq<Round>, b: seq<Round>)
    ensures RunPlan(a + b) == RunPlan(a) + RunPlan(b)
    decreases |a|
  {
    if a == [] {
      assert a + b == b;
    } else {
      assert (a + b)[1..] == a[1..] + b;
      PlanConcat(a[1..], b);
      RoundFirst(a[0], RunPlan(a[1..]), RunPlan(b));
    }
  }

  lemma RoundFirst(round: Round, plan: seq<Step>, rest: seq<Step>)
    ensures round.before + ([Poll(round.events)] + (BatchPlan(round.visits) + (plan + rest))) ==
            round.before + ([Poll(round.events)] + (BatchPlan(round.visits) + plan)) + rest
  {
  }

  lemma {:induction false} VisitsConcat(a: seq<Visit>, b: seq<Visit>)
    ensures BatchPlan(a + b) == BatchPlan(a) + BatchPlan(b)
    decreases |a|
  {
    if a == [] {
      assert a + b == b;
    } else {
      assert (a + b)[1..] == a[1..] + b;
      VisitsConcat(a[1..], b);
    }
  }

  lemma PlanOfOneRound(round: Round, visit: Visit)
    ensures RunPlan([round]) == round.before + [Poll(round.events)] + BatchPlan(round.visits)
    ensures BatchPlan([visit]) == visit.before + [Dispatch(visit.service)]
  {
    assert [round][1..] == [] && [visit][1..] == [];
    assert BatchPlan(round.visits) + [] == BatchPlan(round.visits);
  }

  predicate ClientStep(step: Step) {
    step.Connect? || step.Send? || step.HangUp?
  }

  predicate ByClients(steps: seq<Step>) {
    forall i :: 0 <= i < |steps| ==> ClientStep(steps[i])
  }

  predicate WellFormed(round: Round) {
    && |round.visits| <= |round.events|
    && ByClients(round.before)
    && (forall i :: 0 <= i < |round.visits| ==> ByClients(round.visits[i].before))
  }

  /** All events of a round are looked at, except in a last round that ends the daemon. */
  ghost predicate Complete(rounds: seq<Round>)
    requires Runs(START, RunPlan(rounds))
  {
    forall i :: 0 <= i < |rounds| ==>
      && WellFormed(rounds[i])
      && (|rounds[i].visits| < |rounds[i].events| ==>
            i == |rounds| - 1 && !After(START, RunPlan(rounds)).alive)
  }

  /** What a call puts on the bus. */
  function BusPart(outcome: Outcome, beyond: Beyond): seq<bv8> {
    if outcome.Executes? then BusOutput(outcome.r, beyond) else []
  }

  predicate Ends(c: Conn, outcome: Outcome, buttons: Buttons) {
    outcome.Executes? && Fatal(c, buttons, outcome.r)
  }

  /** The parts of the state a call changes. */
  lemma ConInIs(s: State, id: ConnId, service: Service)
    requires id in s.conns
    ensures var h, s' := Handle(s.conns[id].queue, service.turns, 0), Daemon.ConIn(s, id, service);
            && s'.bus == s.bus + BusPart(h.outcome, service.beyond)
            && s'.alive == (s.alive && !Ends(s.conns[id], h.outcome, service.buttons))
            && s'.batch == s.batch && s'.backlog == s.backlog && s'.conns == s.conns[id := s'.conns[id]]
            && s'.conns[id].queue == h.queue && s'.conns[id].hungUp == s.conns[id].hungUp
  {
    assert s.bus + [] == s.bus;
  }

  /** A daemon that has been ended looks at no event. */
  lemma {:induction false} DispatchNeedsLife(s: State, steps: seq<Step>, k: nat)
    requires Runs(s, steps) && k < |steps| && steps[k].Dispatch?
    ensures s.alive
    decreases k
  {
    if k > 0 {
      DispatchNeedsLife(Do(s, steps[0]), steps[1..], k - 1);
    }
  }

  lemma StillAlive(s: State, visits: seq<Visit>, rest: seq<Step>)
    requires visits != [] && Runs(s, BatchPlan(visits) + rest)
    ensures s.alive
  {
    PlanOfOneEvent(visits, rest);
    var k := |visits[0].before|;
    assert (BatchPlan(visits) + rest)[k] == Dispatch(visits[0].service);
    DispatchNeedsLife(s, BatchPlan(visits) + rest, k);
  }

  lemma NothingLeft(s: State, visits: seq<Visit>, rest: seq<Step>)
    requires Runs(s, BatchPlan(visits) + rest)
    ensures visits == [] && rest == [] ==> After(s, BatchPlan(visits) + rest) == s
  {
    if visits == [] && rest == [] {
      assert BatchPlan(visits) + rest == [];
    }
  }

  class EventLoop {
    const hal: Hal
    var backlog: seq<ConnId>
    var queues: map<ConnId, seq<bv8>>  // what each connection has to read
    var gone: set<ConnId>              // whose clients have hung up
    var alive: bool
    ghost var conns: map<ConnId, Conn>
    ghost var batch: seq<Event>
    ghost var log: seq<Entry>

    constructor (hal: Hal)
      requires hal.side.Rpi? && hal.handle >= 0 && hal.bus.written == []
      ensures this.hal == hal && Valid() && Now() == START
    {
      this.hal := hal;
      backlog, queues, gone, alive, conns, batch, log := [], map[], {}, true, map[], [], [];
    }

    /** The display is opened, and the sockets are those of the connections. */
    ghost predicate Valid()
      reads this
    {
      && hal.side.Rpi? && hal.handle >= 0
      && (forall id :: id in conns ==> id in queues && queues[id] == conns[id].queue)
      && (forall id :: id in conns ==> (id in gone <==> conns[id].hungUp))
    }

    /** The bus is the display's own. */
    ghost function Now(): State
      reads this, hal.bus
    {
      State(conns, backlog, batch, log, hal.bus.written, alive)
    }

    ghost predicate Sound()
      reads this, hal.bus
    {
      Valid() && Inv(Now())
    }

    method ConAdd()
      requires Valid() && forall i :: 0 <= i < |backlog| ==> backlog[i] in conns && conns[backlog[i]].phase.Waiting?
      modifies this
      ensures Valid() && Now() == Daemon.ConAdd(old(Now()))
    {
      if backlog == [] { return; }
      var eventSocket := backlog[0];
      backlog := backlog[1..];
      conns := conns[eventSocket := conns[eventSocket].(phase := Registered)];
    }

    /** The handler reads the connection's bytes and acts on the display. */
    method HandleOn(fd: ConnId, service: Service)
      requires Valid() && fd in conns
      modifies this`queues, this`alive, hal`sent, hal.bus
      ensures var h := Handle(old(queues[fd]), service.turns, 0);
              && queues == old(queues)[fd := h.queue]
              && hal.bus.written == old(hal.bus.written)
                 + BusPart(h.outcome, service.beyond)
              && alive == (old(alive) && !Ends(conns[fd], h.outcome, service.buttons))
    {
      var sock := new Socket();
      sock.rx, sock.peerGone := queues[fd], fd in gone;
      ghost var before := hal.bus.written;
      var _, _ := HandleRequest(sock, hal, service.buttons, [0, 0, 0], service.beyond, service.turns, 0);
      queues := queues[fd := sock.rx];
      alive := alive && !sock.signalled;
      assert before + [] == before;
    }

    method ConIn(fd: ConnId, service: Service)
      requires Valid() && fd in conns
      modifies this, hal`sent, hal.bus
      ensures Valid() && Now() == Daemon.ConIn(old(Now()), fd, service)
    {
      ghost var was, after := Now(), Daemon.ConIn(Now(), fd, service);
      ConInIs(was, fd, service);
      HandleOn(fd, service);
      conns, log := after.conns, after.log;
    }

    method ConClose(fd: ConnId)
      requires Valid() && fd in conns
      modifies this
      ensures Valid() && Now() == Daemon.ConClose(old(Now()), fd)
    {
      conns := conns[fd := conns[fd].(phase := Closed)];
    }

    method Client(step: Step)
      requires Valid() && ClientStep(step) && Enabled(Now(), step)
      modifies this
      ensures Valid() && Now() == Do(old(Now()), step)
    {
      match step
      case Connect(id) =>
        conns := conns[id := Conn([], false, Waiting, [], [])];
        queues, gone := queues[id := []], gone - {id};
        backlog := backlog + [id];
      case Send(id, frame) =>
        ghost var c := conns[id];
        conns := conns[id := c.(queue := c.queue + Encode(frame), sent := c.sent + [frame])];
        queues := queues[id := queues[id] + Encode(frame)];
      case HangUp(id) =>
        conns := conns[id := conns[id].(hungUp := true)];
        gone := gone + {id};
    }

    method ClientThen(step: Step, ghost rest: seq<Step>)
      requires ClientStep(step) && Sound() && Runs(Now(), [step] + rest)
      modifies this
      ensures Sound() && Runs(Now(), rest) && batch == old(batch)
      ensures After(Now(), rest) == After(old(Now()), [step] + rest)
    {
      assert ([step] + rest)[1..] == rest;
      StepKeepsInv(Now(), step);
      Client(step);
    }

    /** Some client steps, the rest of the plan following. */
    method Clients(steps: seq<Step>, ghost rest: seq<Step>)
      requires Sound() && Runs(Now(), steps + rest)
      requires ByClients(steps)
      modifies this
      ensures Sound() && Runs(Now(), rest)
      ensures After(Now(), rest) == After(old(Now()), steps + rest)
      ensures batch == old(batch)
      decreases |steps|
    {
      if steps == [] {
        assert steps + rest == rest;
      } else {
        assert steps + rest == [steps[0]] + (steps[1..] + rest);
        ClientThen(steps[0], steps[1..] + rest);
        Clients(steps[1..], rest);
      }
    }

    /** The body of the inner loop for one event. */
    method DispatchEvent(event: Event, service: Service)
      requires Sound() && batch != [] && batch[0] == event && Enabled(Now(), Dispatch(service))
      modifies this, hal`sent, hal.bus
      ensures Valid() && Now() == Do(old(Now()), Dispatch(service)) && batch == old(batch)[1..]
    {
      RestOfBatch(Now());
      batch := batch[1..];
      if event.Listen? {
        ConAdd();
      } else {
        DispatchReady(event.id, event.input, event.hangup, service);
      }
    }

    method DispatchReady(fd: ConnId, input: bool, hangup: bool, service: Service)
      requires Valid() && fd in conns
      modifies this, hal`sent, hal.bus
      ensures Valid() && Now() == Process(old(Now()), Ready(fd, input, hangup), service)
    {
      if input {
        ConIn(fd, service);
      }
      if hangup && alive {
        ConClose(fd);
      }
    }

    method VisitEvent(visit: Visit, event: Event, ghost later: seq<Step>)
      requires batch != [] && batch[0] == event && ByClients(visit.before)
      requires Sound() && Runs(Now(), visit.before + ([Dispatch(visit.service)] + later))
      modifies this, hal`sent, hal.bus
      ensures Sound() && Runs(Now(), later) && batch == old(batch)[1..]
      ensures After(Now(), later) == After(old(Now()), visit.before + ([Dispatch(visit.service)] + later))
    {
      ghost var dispatch := Dispatch(visit.service);
      Clients(visit.before, [dispatch] + later);
      assert ([dispatch] + later)[1..] == later;
      StepKeepsInv(Now(), dispatch);
      DispatchEvent(event, visit.service);
    }

    /** The events of one epoll_wait, clients acting in between and meanwhile, up to the one
        that ends the daemon if there is such. */
    method DispatchBatch(events: seq<Event>, visits: seq<Visit>, ghost rest: seq<Step>)
      requires |visits| <= |events| && batch == events
      requires forall i :: 0 <= i < |visits| ==> ByClients(visits[i].before)
      requires Sound() && Runs(Now(), BatchPlan(visits) + rest)
      requires |visits| < |events| ==> rest == [] && !After(Now(), BatchPlan(visits) + rest).alive
      modifies this, hal`sent, hal.bus
      ensures Sound() && Runs(Now(), rest)
      ensures After(Now(), rest) == After(old(Now()), BatchPlan(visits) + rest)
    {
      ghost var goal := After(Now(), BatchPlan(visits) + rest);
      var eventIdx := 0;
      assert visits[0..] == visits && events[0..] == events;
      while eventIdx < |events| && alive
        invariant eventIdx <= |visits| && batch == events[eventIdx..]
        invariant Sound() && Runs(Now(), BatchPlan(visits[eventIdx..]) + rest)
        invariant After(Now(), BatchPlan(visits[eventIdx..]) + rest) == goal
      {
        NothingLeft(Now(), visits[eventIdx..], rest);
        PlanOfOneEvent(visits[eventIdx..], rest);
        assert visits[eventIdx..][1..] == visits[eventIdx + 1..];
        VisitEvent(visits[eventIdx], events[eventIdx], BatchPlan(visits[eventIdx + 1..]) + rest);
        eventIdx := eventIdx + 1;
      }
      if eventIdx < |visits| {
        StillAlive(Now(), visits[eventIdx..], rest);
      }
      assert BatchPlan(visits[eventIdx..]) + rest == rest;
    }

    method RunRound(round: Round, ghost rest: seq<Step>)
      requires Sound() && WellFormed(round)
      requires Runs(Now(), round.before + ([Poll(round.events)] + (BatchPlan(round.visits) + rest)))
      requires |round.visits| < |round.events| ==>
        && rest == []
        && !After(Now(), round.before + ([Poll(round.events)] + (BatchPlan(round.visits) + rest))).alive
      modifies this, hal`sent, hal.bus
      ensures Sound() && Runs(Now(), rest)
      ensures After(Now(), rest) ==
              After(old(Now()), round.before + ([Poll(round.events)] + (BatchPlan(round.visits) + rest)))
    {
      ghost var body := BatchPlan(round.visits) + rest;
      Clients(round.before, [Poll(round.events)] + body);
      EpollWait(round.events, body);
      DispatchBatch(round.events, round.visits, rest);
    }

    ghost method EpollWait(events: seq<Event>, body: seq<Step>)
      requires Sound() && Runs(Now(), [Poll(events)] + body)
      modifies this`batch
      ensures Sound() && Runs(Now(), body) && batch == events
      ensures After(Now(), body) == After(old(Now()), [Poll(events)] + body)
    {
      assert ([Poll(events)] + body)[1..] == body;
      StepKeepsInv(Now(), Poll(events));
      batch := events;
    }

    /** The whole loop, for as many rounds as pass before it is stopped or the daemon is ended:
        it ends where the transition system does, down to the bytes on the display's bus. */
    method Run(rounds: seq<Round>)
      requires Valid() && Now() == START
      requires Runs(START, RunPlan(rounds)) && Complete(rounds)
      modifies this, hal`sent, hal.bus
      ensures Now() == After(START, RunPlan(rounds))
    {
      ghost var goal := After(START, RunPlan(rounds));
      StartKeepsInv();
      var i := 0;
      assert rounds[0..] == rounds;
      while i < |rounds|
        invariant i <= |rounds|
        invariant Sound() && Runs(Now(), RunPlan(rounds[i..]))
        invariant After(Now(), RunPlan(rounds[i..])) == goal
      {
        assert rounds[i..][1..] == rounds[i + 1..];
        RunRound(rounds[i], RunPlan(rounds[i + 1..]));
        i := i + 1;
      }
      assert RunPlan(rounds[i..]) == [];
    }
  }
}
