/** Nobody is forgotten: from every reachable state the event loop can serve any connection,
    and what can end it. */
module Serving {
  import opened Seqs
  import opened Wire
  import opened Stream
  import opened Cmds
  import opened Hal
  import opened Daemon

  /** A handler call during which nothing arrives. */
  ghost predicate Undisturbed(service: Service) {
    Prompt(service.turns) && Quiet(service.turns) && service.arriving == []
  }

  /** Handling this event does not end the daemon. */
  ghost predicate Spares(conns: map<ConnId, Conn>, e: Event, buttons: Buttons) {
    e.Ready? && e.id in conns ==> !KilledBy(conns[e.id], buttons)
  }

  /** Neither of the client's two oldest buffered requests, which are all that is looked at
      before a connection whose client has gone is closed, would be answered then. */
  ghost predicate NoLateAnswer(c: Conn, buttons: Buttons) {
    forall k :: |c.done| <= k < |c.sent| && k < |c.done| + 2 ==> !Fatal(c, buttons, c.sent[k].req)
  }

  lemma StaysAnswered(c: Conn, c': Conn, buttons: Buttons)
    requires NoLateAnswer(c, buttons) && MovedOn(c, c') && |c'.done| <= |c.done| + 1
    ensures !KilledBy(c', buttons)
  {
  }

  lemma ByDaemonTransitive(s: State, s1: State, s2: State)
    requires ByDaemon(s, s1) && ByDaemon(s1, s2)
    ensures ByDaemon(s, s2)
  {
    forall id | id in s.conns ensures MovedOn(s.conns[id], s2.conns[id]) {
      assert MovedOn(s.conns[id], s1.conns[id]) && MovedOn(s1.conns[id], s2.conns[id]);
    }
  }

  lemma NonEmptyQueue(c: Conn)
    requires Conserved(c) && |c.done| < |c.sent|
    ensures c.queue != []
  {
  }

  lemma {:induction false} RunsConcat(s: State, a: seq<Step>, b: seq<Step>)
    requires Runs(s, a) && Runs(After(s, a), b)
    ensures Runs(s, a + b) && After(s, a + b) == After(After(s, a), b)
    decreases |a|
  {
    if a == [] {
      assert a + b == b;
    } else {
      assert (a + b)[1..] == a[1..] + b;
      RunsConcat(Do(s, a[0]), a[1..], b);
    }
  }

  /** The loop can go on when clients are quiet and the event spares it. */
  lemma QuietDispatch(s: State, service: Service)
    requires Inv(s) && s.alive && s.batch != [] && Undisturbed(service)
    requires Spares(s.conns, s.batch[0], service.buttons)
    ensures Enabled(s, Dispatch(service))
    ensures var s' := Do(s, Dispatch(service));
            Inv(s') && s'.alive && ByDaemon(s, s') && s'.batch == s.batch[1..]
  {
    assert Current(s.conns, s.batch[0]);
    if s.batch[0].Ready? {
      QuietHandle(s.conns[s.batch[0].id].queue, service.turns, 0);
    }
    DispatchKeepsInv(s, service);
    DispatchKillsIff(s, service);
  }

  lemma TwoSteps(s: State, first: Step, second: Step)
    requires Enabled(s, first) && Enabled(Do(s, first), second)
    ensures Runs(s, [first, second]) && After(s, [first, second]) == Do(Do(s, first), second)
  {
    var s1 := Do(s, first);
    assert [first, second][1..] == [second] && [second][1..] == [];
    assert Runs(Do(s1, second), []) && After(Do(s1, second), []) == Do(s1, second);
    assert Runs(s1, [second]) && After(s1, [second]) == Do(s1, second);
  }

  /** Handling one event executes nothing for a connection it is not about. */
  lemma OthersUntouched(s: State, e: Event, service: Service, k: ConnId)
    requires k in s.conns && (e.Ready? ==> e.id != k)
    ensures var c, c' := s.conns[k], Process(s, e, service).conns[k];
            c'.hungUp == c.hungUp && c'.sent == c.sent && c'.done == c.done
  {
  }

  lemma RestSpared(s: State, service: Service)
    requires Inv(s) && Enabled(s, Dispatch(service))
    requires forall i :: 1 <= i < |s.batch| ==> Spares(s.conns, s.batch[i], service.buttons)
    ensures var s' := Do(s, Dispatch(service));
            forall i :: 0 <= i < |s.batch| - 1 ==> Spares(s'.conns, s.batch[1..][i], service.buttons)
  {
    forall i | 0 <= i < |s.batch| - 1
      ensures Spares(Do(s, Dispatch(service)).conns, s.batch[1..][i], service.buttons)
    {
      var e := s.batch[i + 1];
      assert !SameSource(s.batch[0], e) && Current(s.conns, e) && Spares(s.conns, e, service.buttons);
      if e.Ready? {
        OthersUntouched(s.(batch := s.batch[1..]), s.batch[0], service, e.id);
      }
    }
  }

  /** And at most one request for the one it is about. */
  lemma OneExecuted(s: State, service: Service, k: ConnId)
    requires Inv(s) && Enabled(s, Dispatch(service)) && k in s.conns
    ensures var c, c' := s.conns[k], Do(s, Dispatch(service)).conns[k];
            |c'.done| <= |c.done| + if Mentions(s.batch, k) && !Mentions(s.batch[1..], k) then 1 else 0
  {
    var e := s.batch[0];
    RestOfBatch(s);
    if e.Ready? && e.id == k {
      assert e in s.batch;
      NothingArrives(s, e, service);
      ConInOnConn(s.(batch := s.batch[1..]), k, service);
    } else {
      OthersUntouched(s.(batch := s.batch[1..]), e, service, k);
    }
  }

  lemma OnlyMentioned(s: State, s1: State, s2: State, service: Service, k: ConnId)
    requires Inv(s) && Enabled(s, Dispatch(service)) && s1 == Do(s, Dispatch(service)) && k in s.conns
    requires k in s1.conns && k in s2.conns
    requires |s2.conns[k].done| <= |s1.conns[k].done| + if Mentions(s.batch[1..], k) then 1 else 0
    ensures |s2.conns[k].done| <= |s.conns[k].done| + if Mentions(s.batch, k) then 1 else 0
  {
    OneExecuted(s, service, k);
    if Mentions(s.batch[1..], k) {
      var e :| e in s.batch[1..] && e.Ready? && e.id == k;
      assert e in s.batch;
    }
  }

  /** A batch that has begun is worked off. */
  lemma FinishBatch(s: State, service: Service) returns (steps: seq<Step>)
    requires Inv(s) && s.alive && Undisturbed(service)
    requires forall i :: 0 <= i < |s.batch| ==> Spares(s.conns, s.batch[i], service.buttons)
    ensures Runs(s, steps)
    ensures var s' := After(s, steps); Inv(s') && s'.alive && s'.batch == [] && ByDaemon(s, s')
    ensures forall k :: k in s.conns ==>
              |After(s, steps).conns[k].done| <= |s.conns[k].done| + if Mentions(s.batch, k) then 1 else 0
    decreases |s.batch|
  {
    if s.batch == [] {
      steps := [];
    } else {
      QuietDispatch(s, service);
      RestSpared(s, service);
      var s1 := Do(s, Dispatch(service));
      var rest := FinishBatch(s1, service);
      steps := [Dispatch(service)] + rest;
      assert steps[1..] == rest;
      ByDaemonTransitive(s, s1, After(s1, rest));
      forall k | k in s.conns
        ensures |After(s1, rest).conns[k].done| <= |s.conns[k].done| + if Mentions(s.batch, k) then 1 else 0
      {
        OnlyMentioned(s, s1, After(s1, rest), service, k);
      }
    }
  }

  /** One wait for one event, and its handling. */
  lemma PollOne(s: State, e: Event, service: Service) returns (steps: seq<Step>)
    requires Inv(s) && s.alive && s.batch == [] && Reports(s, e) && Undisturbed(service)
    requires Spares(s.conns, e, service.buttons)
    ensures Runs(s, steps) && After(s, steps) == Process(s, e, service)
    ensures var s' := After(s, steps); Inv(s') && s'.alive && s'.batch == [] && ByDaemon(s, s')
  {
    var poll := Poll([e]);
    var s1 := Do(s, poll);
    StepKeepsInv(s, poll);
    QuietDispatch(s1, service);
    assert [e][1..] == [] && s1.(batch := []) == s;
    TwoSteps(s, poll, Dispatch(service));
    steps := [poll, Dispatch(service)];
  }

  /** A waiting connection is accepted after those before it in the backlog. */
  lemma Accepted(s: State, id: ConnId, service: Service) returns (steps: seq<Step>)
    requires Inv(s) && s.alive && s.batch == [] && Undisturbed(service)
    requires id in s.conns && s.conns[id].phase.Waiting?
    ensures Runs(s, steps)
    ensures var s' := After(s, steps);
            && Inv(s') && s'.alive && s'.batch == [] && ByDaemon(s, s')
            && s'.conns[id].phase.Registered? && s'.conns[id].done == s.conns[id].done
    decreases |s.backlog|
  {
    assert id in s.backlog;
    var first := PollOne(s, Listen, service);
    var s1 := After(s, first);
    assert s1 == ConAdd(s);
    if s.backlog[0] == id {
      steps := first;
    } else {
      AcceptedIsFirst(s, id);
      var rest := Accepted(s1, id, service);
      RunsConcat(s, first, rest);
      steps := first + rest;
      ByDaemonTransitive(s, s1, After(s1, rest));
    }
  }

  lemma AcceptedIsFirst(s: State, id: ConnId)
    requires Inv(s) && s.backlog != [] && s.backlog[0] != id && id in s.conns
    ensures ConAdd(s).conns[id] == s.conns[id] && |ConAdd(s).backlog| < |s.backlog|
  {
  }

  /** An open, registered connection has everything executed that its client has written. */
  lemma Drained(s: State, id: ConnId, service: Service) returns (steps: seq<Step>)
    requires Inv(s) && s.alive && s.batch == [] && Undisturbed(service)
    requires id in s.conns && s.conns[id].phase.Registered? && !s.conns[id].hungUp
    ensures Runs(s, steps)
    ensures var s' := After(s, steps);
            Inv(s') && s'.alive && ByDaemon(s, s') && s'.conns[id].done == Requests(s'.conns[id].sent)
    decreases |s.conns[id].sent| - |s.conns[id].done|
  {
    assert Conserved(s.conns[id]);
    DoneIff(s.conns[id]);
    if |s.conns[id].done| == |s.conns[id].sent| {
      steps := [];
    } else {
      var first := DrainOne(s, id, service);
      var s1 := After(s, first);
      var rest := Drained(s1, id, service);
      RunsConcat(s, first, rest);
      steps := first + rest;
      ByDaemonTransitive(s, s1, After(s1, rest));
    }
  }

  lemma DrainOne(s: State, id: ConnId, service: Service) returns (steps: seq<Step>)
    requires Inv(s) && s.alive && s.batch == [] && Undisturbed(service)
    requires id in s.conns && s.conns[id].phase.Registered? && !s.conns[id].hungUp
    requires |s.conns[id].done| < |s.conns[id].sent|
    ensures Runs(s, steps)
    ensures var c, s' := s.conns[id], After(s, steps);
            && Inv(s') && s'.alive && s'.batch == [] && ByDaemon(s, s')
            && s'.conns[id].phase.Registered? && |s'.conns[id].done| == |c.done| + 1
  {
    assert Conserved(s.conns[id]);
    NonEmptyQueue(s.conns[id]);
    QuietHandle(s.conns[id].queue, service.turns, 0);
    ConInOnConn(s, id, service);
    steps := PollOne(s, Ready(id, true, false), service);
  }

  /** A registered connection whose client has gone is closed. */
  lemma HungUpCloses(s: State, id: ConnId, service: Service) returns (steps: seq<Step>)
    requires Inv(s) && s.alive && s.batch == [] && Undisturbed(service)
    requires id in s.conns && s.conns[id].phase.Registered? && s.conns[id].hungUp
    requires !KilledBy(s.conns[id], service.buttons)
    ensures Runs(s, steps)
    ensures var c, s' := s.conns[id], After(s, steps);
            && Inv(s') && ByDaemon(s, s') && s'.conns[id].phase.Closed?
            && |s'.conns[id].done| == if |c.done| < |c.sent| then |c.done| + 1 else |c.done|
  {
    assert Conserved(s.conns[id]);
    steps := PollOne(s, Ready(id, true, true), service);
    QuietHandle(s.conns[id].queue, service.turns, 0);
    HangupEvent(s, id, service);
  }

  /** Nobody is forgotten: from every reachable state and whatever the phase of a connection,
      the loop can serve it without further help from any client, as long as no answer is due
      to a client that has gone, here or in the batch at hand. If the client has hung up its
      connection ends closed; and what it sent has then been executed, all of it, once and in
      order, unless it hung up with more than one request written. */
  lemma EveryConnectionServed(s: State, id: ConnId, service: Service) returns (steps: seq<Step>)
    requires Inv(s) && s.alive && id in s.conns && Undisturbed(service)
    requires forall i :: 0 <= i < |s.batch| ==> Spares(s.conns, s.batch[i], service.buttons)
    requires NoLateAnswer(s.conns[id], service.buttons)
    ensures Runs(s, steps) && ByDaemon(s, After(s, steps))
    ensures var c := After(s, steps).conns[id];
            && (c.hungUp ==> c.phase.Closed?)
            && (!c.hungUp || |c.sent| <= 1 ==> c.done == Requests(c.sent))
  {
    steps := Reached(s, id, service);
    var s1 := After(s, steps);
    assert ClosedProperly(s1.conns[id]);
    StaysAnswered(s.conns[id], s1.conns[id], service.buttons);
    if s1.conns[id].phase.Registered? {
      var more := RegisteredServed(s1, id, service);
      RunsConcat(s, steps, more);
      ByDaemonTransitive(s, s1, After(s1, more));
      steps := steps + more;
    }
  }

  /** The batch at hand is finished and the connection accepted. */
  lemma Reached(s: State, id: ConnId, service: Service) returns (steps: seq<Step>)
    requires Inv(s) && s.alive && id in s.conns && Undisturbed(service)
    requires forall i :: 0 <= i < |s.batch| ==> Spares(s.conns, s.batch[i], service.buttons)
    ensures Runs(s, steps)
    ensures var s' := After(s, steps);
            && Inv(s') && s'.alive && s'.batch == [] && ByDaemon(s, s')
            && !s'.conns[id].phase.Waiting? && |s'.conns[id].done| <= |s.conns[id].done| + 1
  {
    steps := FinishBatch(s, service);
    var s1 := After(s, steps);
    if s1.conns[id].phase.Waiting? {
      var more := Accepted(s1, id, service);
      RunsConcat(s, steps, more);
      ByDaemonTransitive(s, s1, After(s1, more));
      steps := steps + more;
    }
  }

  lemma RegisteredServed(s: State, id: ConnId, service: Service) returns (steps: seq<Step>)
    requires Inv(s) && s.alive && s.batch == [] && Undisturbed(service)
    requires id in s.conns && s.conns[id].phase.Registered? && !KilledBy(s.conns[id], service.buttons)
    ensures Runs(s, steps) && ByDaemon(s, After(s, steps))
    ensures var c := After(s, steps).conns[id];
            && (c.hungUp ==> c.phase.Closed?)
            && (!c.hungUp || |c.sent| <= 1 ==> c.done == Requests(c.sent))
  {
    if s.conns[id].hungUp {
      steps := HungUpCloses(s, id, service);
      assert ClosedProperly(After(s, steps).conns[id]);
    } else {
      steps := Drained(s, id, service);
    }
  }

  // --------------------------------------------------- first come, first served

  /** The clients of a run in the order in which they connect. */
  function Arrivals(steps: seq<Step>): seq<ConnId> {
    if steps == [] then []
    else (if steps[0].Connect? then [steps[0].id] else []) + Arrivals(steps[1..])
  }

  /** The first k of these clients have been accepted, the others wait in this order. */
  ghost predicate AcceptedUpTo(s: State, ids: seq<ConnId>, k: nat) {
    && k <= |ids| && s.backlog == ids[k..]
    && forall i :: 0 <= i < k ==> ids[i] in s.conns && !s.conns[ids[i]].phase.Waiting?
  }

  lemma AcceptsNext(s: State, ids: seq<ConnId>, k: nat)
    requires BacklogWaits(s.conns, s.backlog) && AcceptedUpTo(s, ids, k)
    ensures AcceptedUpTo(ConAdd(s), ids, if k < |ids| then k + 1 else k)
  {
    if k < |ids| {
      assert s.backlog[0] == ids[k] && s.backlog[1..] == ids[k + 1..];
    }
  }

  /** Handling a connection makes nobody wait again. */
  lemma ReadyMovesOn(s: State, e: Event, service: Service, k: ConnId)
    requires e.Ready? && e.id in s.conns && k in s.conns && !s.conns[k].phase.Waiting?
    ensures var s' := Process(s, e, service);
            s'.backlog == s.backlog && k in s'.conns && !s'.conns[k].phase.Waiting?
  {
  }

  lemma StaysAccepted(s: State, e: Event, service: Service, ids: seq<ConnId>, k: nat)
    requires e.Ready? && e.id in s.conns && AcceptedUpTo(s, ids, k)
    ensures AcceptedUpTo(Process(s, e, service), ids, k)
  {
    var s' := Process(s, e, service);
    forall i | 0 <= i < k ensures ids[i] in s'.conns && !s'.conns[ids[i]].phase.Waiting? {
      ReadyMovesOn(s, e, service, ids[i]);
    }
    assert s'.backlog == s.backlog;
  }

  lemma DispatchInOrder(s: State, service: Service, ids: seq<ConnId>, k: nat) returns (k': nat)
    requires Inv(s) && Enabled(s, Dispatch(service)) && AcceptedUpTo(s, ids, k)
    ensures AcceptedUpTo(Do(s, Dispatch(service)), ids, k')
  {
    var e, s0 := s.batch[0], s.(batch := s.batch[1..]);
    assert Current(s.conns, e);
    k' := k;
    if e.Listen? {
      AcceptsNext(s0, ids, k);
      if k < |ids| { k' := k + 1; }
    } else {
      StaysAccepted(s0, e, service, ids, k);
    }
  }

  lemma ConnectInOrder(s: State, id: ConnId, ids: seq<ConnId>, k: nat)
    requires AcceptedUpTo(s, ids, k) && id !in s.conns
    ensures AcceptedUpTo(Do(s, Connect(id)), ids + [id], k)
  {
    assert (ids + [id])[k..] == ids[k..] + [id];
  }

  lemma OthersInOrder(s: State, step: Step, ids: seq<ConnId>, k: nat)
    requires AcceptedUpTo(s, ids, k) && Enabled(s, step) && (step.Send? || step.HangUp? || step.Poll?)
    ensures AcceptedUpTo(Do(s, step), ids, k)
  {
  }

  lemma StepInOrder(s: State, step: Step, ids: seq<ConnId>, k: nat) returns (k': nat)
    requires Inv(s) && Enabled(s, step) && AcceptedUpTo(s, ids, k)
    ensures AcceptedUpTo(Do(s, step), if step.Connect? then ids + [step.id] else ids, k')
  {
    k' := k;
    match step
    case Connect(id) => ConnectInOrder(s, id, ids, k);
    case Dispatch(service) => k' := DispatchInOrder(s, service, ids, k);
    case _ => OthersInOrder(s, step, ids, k);
  }

  lemma {:induction false} RunInOrder(s: State, steps: seq<Step>, ids: seq<ConnId>, k: nat) returns (k': nat)
    requires Inv(s) && Runs(s, steps) && AcceptedUpTo(s, ids, k)
    ensures AcceptedUpTo(After(s, steps), ids + Arrivals(steps), k')
    decreases |steps|
  {
    if steps == [] {
      k' := k;
      assert ids + [] == ids;
    } else {
      var k1 := StepInOrder(s, steps[0], ids, k);
      StepKeepsInv(s, steps[0]);
      ArrivalsFirst(ids, steps);
      k' := RunInOrder(Do(s, steps[0]), steps[1..], if steps[0].Connect? then ids + [steps[0].id] else ids, k1);
    }
  }

  lemma ArrivalsFirst(ids: seq<ConnId>, steps: seq<Step>)
    requires steps != []
    ensures (if steps[0].Connect? then ids + [steps[0].id] else ids) + Arrivals(steps[1..]) == ids + Arrivals(steps)
  {
  }

  /** In every run connections are accepted in the order in which they were made. */
  lemma AcceptedInOrder(steps: seq<Step>) returns (k: nat)
    requires Runs(START, steps)
    ensures var s, ids := After(START, steps), Arrivals(steps);
            && k <= |ids| && s.backlog == ids[k..]
            && (forall i :: 0 <= i < k ==> ids[i] in s.conns && !s.conns[ids[i]].phase.Waiting?)
            && (forall i :: k <= i < |ids| ==> ids[i] in s.conns && s.conns[ids[i]].phase.Waiting?)
  {
    StartKeepsInv();
    RunKeepsInv(START, steps);
    k := RunInOrder(START, steps, [], 0);
    assert [] + Arrivals(steps) == Arrivals(steps);
    RestWaits(After(START, steps), Arrivals(steps), k);
  }

  lemma RestWaits(s: State, ids: seq<ConnId>, k: nat)
    requires BacklogWaits(s.conns, s.backlog) && AcceptedUpTo(s, ids, k)
    ensures forall i :: k <= i < |ids| ==> ids[i] in s.conns && s.conns[ids[i]].phase.Waiting?
  {
    forall i | k <= i < |ids| ensures ids[i] in s.conns && s.conns[ids[i]].phase.Waiting? {
      assert s.backlog[i - k] == ids[i];
    }
  }

  // ---------------------------------------------------------- concrete runs

  /** A client that writes two requests and hangs up before the daemon looks. */
  lemma TwoThenHangUp(f: Frame, f': Frame) returns (steps: seq<Step>)
    ensures Runs(START, steps) && Inv(After(START, steps))
    ensures var s := After(START, steps);
            && s.alive && s.batch == [] && s.backlog == [0] && 0 in s.conns
            && s.conns[0].hungUp && s.conns[0].sent == [f, f'] && s.conns[0].done == []
  {
    steps := [Connect(0), Send(0, f), Send(0, f'), HangUp(0)];
    var s1 := Do(START, Connect(0));
    var s2 := Do(s1, Send(0, f));
    var s3 := Do(s2, Send(0, f'));
    var s4 := Do(s3, HangUp(0));
    TwoSteps(START, Connect(0), Send(0, f));
    TwoSteps(s2, Send(0, f'), HangUp(0));
    RunsConcat(START, [Connect(0), Send(0, f)], [Send(0, f'), HangUp(0)]);
    assert steps == [Connect(0), Send(0, f)] + [Send(0, f'), HangUp(0)];
    assert [f] + [f'] == [f, f'];
    StartKeepsInv();
    RunKeepsInv(START, steps);
  }

  /** Its hangup is reported with its input; the close takes the second request along. */
  lemma ClosedAfterOne(s: State, id: ConnId, f: Frame, f': Frame, service: Service) returns (steps: seq<Step>)
    requires Inv(s) && s.alive && s.batch == [] && Undisturbed(service)
    requires id in s.conns && s.conns[id].phase.Registered? && s.conns[id].hungUp
    requires s.conns[id].sent == [f, f'] && s.conns[id].done == [] && ReplyBytes(service.buttons, f.req) == []
    ensures Runs(s, steps) && id in After(s, steps).conns
    ensures var c := After(s, steps).conns[id];
            c.phase.Closed? && c.sent == [f, f'] && c.done == [f.req]
  {
    steps := HungUpCloses(s, id, service);
    assert Conserved(After(s, steps).conns[id]);
    OneOfTwo(After(s, steps).conns[id], f, f');
  }

  lemma OneOfTwo(c: Conn, f: Frame, f': Frame)
    requires Conserved(c) && c.sent == [f, f'] && |c.done| == 1
    ensures c.done == [f.req]
  {
    assert Requests(c.sent)[0] == f.req;
  }

  /** The connection is closed and its second request never executed. */
  lemma HangupLosesSecond(f: Frame, f': Frame, service: Service) returns (steps: seq<Step>)
    requires Undisturbed(service) && ReplyBytes(service.buttons, f.req) == []
    ensures Runs(START, steps) && 0 in After(START, steps).conns
    ensures var c := After(START, steps).conns[0];
            c.phase.Closed? && c.sent == [f, f'] && c.done == [f.req]
  {
    var sends := TwoThenHangUp(f, f');
    var accept := PollOne(After(START, sends), Listen, service);
    var last := ClosedAfterOne(ConAdd(After(START, sends)), 0, f, f', service);
    RunsConcat(START, sends, accept);
    RunsConcat(START, sends + accept, last);
    steps := sends + accept + last;
  }

  /** The last event: its handling ends the daemon. */
  lemma KilledByAnswer(s: State, id: ConnId, service: Service) returns (steps: seq<Step>)
    requires Inv(s) && s.alive && s.batch == [] && Undisturbed(service)
    requires id in s.conns && s.conns[id].phase.Registered? && KilledBy(s.conns[id], service.buttons)
    ensures Runs(s, steps) && !After(s, steps).alive
  {
    var poll := Poll([Ready(id, true, true)]);
    var s1 := Do(s, poll);
    StepKeepsInv(s, poll);
    QuietHandle(s.conns[id].queue, service.turns, 0);
    DispatchKillsIff(s1, service);
    TwoSteps(s, poll, Dispatch(service));
    steps := [poll, Dispatch(service)];
  }

  /** A client that asks for a button and leaves without waiting for the answer, whatever it
      writes besides, ends the daemon for everybody if the button can be read. */
  lemma QueryThenHangUpKills(f: Frame, f': Frame, service: Service) returns (steps: seq<Step>)
    requires Undisturbed(service) && ReplyBytes(service.buttons, f.req) != []
    ensures Runs(START, steps) && !After(START, steps).alive
  {
    var sends := TwoThenHangUp(f, f');
    var accept := PollOne(After(START, sends), Listen, service);
    var last := KilledByAnswer(ConAdd(After(START, sends)), 0, service);
    RunsConcat(START, sends, accept);
    RunsConcat(START, sends + accept, last);
    steps := sends + accept + last;
  }

  /** After that nothing is executed and nobody is served. */
  lemma {:induction false} EndedForGood(s: State, steps: seq<Step>)
    requires Runs(s, steps) && !s.alive
    ensures var s' := After(s, steps); !s'.alive && s'.log == s.log && s'.bus == s.bus
    decreases |steps|
  {
    if steps != [] {
      EndedForGood(Do(s, steps[0]), steps[1..]);
    }
  }
}
