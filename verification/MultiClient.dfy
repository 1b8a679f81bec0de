/** Printing by many clients at once: the bus carries and the display shows whole requests, one
    after the other, in an order that respects every client's own. */
module MultiClient {
  import opened Wire
  import opened Hal
  import opened Daemon
  import D = LcdDriver
  import H = Hd44780
  import L = LcdScreen

  /** The display calls of a log. */
  function CallsOf(log: seq<Entry>): seq<D.Call> {
    if log == [] then [] else CallsOf(log[..|log| - 1]) + DisplayCalls(log[|log| - 1].req, log[|log| - 1].beyond)
  }

  lemma CallsOneMore(log: seq<Entry>, e: Entry)
    ensures CallsOf(log + [e]) == CallsOf(log) + DisplayCalls(e.req, e.beyond) && CallsOf([]) == []
  {
    assert (log + [e])[..|log|] == log;
  }

  lemma {:induction false} BusIsTraces(log: seq<Entry>)
    ensures BusOf(log) == D.Traces(CallsOf(log))
  {
    if log != [] {
      var before, last := log[..|log| - 1], log[|log| - 1];
      BusIsTraces(before);
      D.TracesConcat(CallsOf(before), DisplayCalls(last.req, last.beyond));
    }
  }

  /** The position of a print names a cell. */
  predicate Displayable(r: Request) {
    r.PrintReq? ==> L.Addressable(r.line, r.pos)
  }

  lemma {:induction false} CallsValid(log: seq<Entry>)
    requires forall i :: 0 <= i < |log| ==> Displayable(log[i].req)
    ensures forall c :: c in CallsOf(log) ==> L.Valid(c)
  {
    if log != [] {
      CallsValid(log[..|log| - 1]);
      assert Displayable(log[|log| - 1].req);
    }
  }

  lemma {:induction false} EntryIsOf(log: seq<Entry>, e: Entry)
    requires e in log
    ensures Of(log, e.id) != []
  {
    var before := log[..|log| - 1];
    if log[|log| - 1] != e {
      assert e in before;
      EntryIsOf(before, e);
    }
  }

  lemma LogIsMerge(s: State)
    requires Inv(s)
    ensures forall e :: e in s.log ==> e.id in s.conns
    ensures forall id :: id in s.conns ==>
              Of(s.log, id) == s.conns[id].done && s.conns[id].done <= Requests(s.conns[id].sent)
  {
    forall e | e in s.log ensures e.id in s.conns {
      EntryIsOf(s.log, e);
    }
    forall id | id in s.conns
      ensures Of(s.log, id) == s.conns[id].done && s.conns[id].done <= Requests(s.conns[id].sent)
    {
      assert Conserved(s.conns[id]);
    }
  }

  /** In every run, with any number of clients and whatever they print: the bus carries whole
      requests, one after the other, in the order of the log; and the log is a merge of the
      executed requests of the connections, each in its own order, and of nothing else. */
  lemma AtomicPrinting(steps: seq<Step>)
    requires Runs(START, steps)
    ensures var s := After(START, steps);
            && s.bus == D.Traces(CallsOf(s.log))
            && (forall e :: e in s.log ==> e.id in s.conns)
            && (forall id :: id in s.conns ==>
                  Of(s.log, id) == s.conns[id].done && s.conns[id].done <= Requests(s.conns[id].sent))
  {
    StartKeepsInv();
    RunKeepsInv(START, steps);
    BusIsTraces(After(START, steps).log);
    LogIsMerge(After(START, steps));
  }

  /** If besides every executed print is displayable, what the display shows is the fold of
      those requests over the blank screen. */
  lemma AtomicScreen(steps: seq<Step>, noise: nat -> H.Noise, t: nat, m: H.Machine)
    requires Runs(START, steps)
    requires forall i :: 0 <= i < |After(START, steps).log| ==> Displayable(After(START, steps).log[i].req)
    ensures var s := After(START, steps);
            var m' := H.Run(D.Commands(D.SETUP) + s.bus, noise, t, m);
            && (forall c :: c in CallsOf(s.log) ==> L.Valid(c))
            && L.Ready(m')
            && L.View(m') == L.ApplyAll(CallsOf(s.log), L.Screen(H.BlankRam(), 0, true))
  {
    var log := After(START, steps).log;
    AtomicPrinting(steps);
    CallsValid(log);
    L.SetupThenCalls(CallsOf(log), noise, t, m);
  }
}
