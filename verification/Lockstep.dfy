/** Button queries of a single caller: the request, the daemon's answer and the read of the
    reply, with display requests in between and writes arriving while a handler runs. */
module Lockstep {
  import opened Wrappers
  import opened Seqs
  import opened CStrings
  import opened Wire
  import opened Stream
  import opened Cmds
  import opened Hal
  import opened Client

  datatype Phase = Free | Waiting

  /** Which button of which device. */
  datatype Query = Query(addr: bv8, idx: bv32)

  datatype Link = Link(
    phase: Phase,
    rx: seq<bv8>, frames: seq<Frame>,  // requests under way, as bytes and as frames
    tx: seq<bv8>,                      // bytes on the way back
    asked: seq<Query>,                 // what was asked for, in order
    answers: seq<bv32>,                // states the daemon has written
    got: seq<bv32>,                    // states the client has read
    failed: bool)                      // the daemon could not read a button

  /** A write of the client, a call of the handler with the requests the client writes while
      it runs, or a read of the reply. */
  datatype Step =
    | Send(frame: Frame)
    | Serve(turns: Schedule, buttons: Buttons, arriving: seq<Frame>)
    | Read

  const START: Link := Link(Free, [], [], [], [], [], [], false)

  /** The client's state after one write: a query makes it wait. */
  function Sent(l: Link, f: Frame): Link {
    var l' := l.(rx := l.rx + Encode(f), frames := l.frames + [f]);
    if f.req.GetBtnStateReq? then l'.(phase := Waiting, asked := l.asked + [QueryOf(f.req)]) else l'
  }

  function SentAll(l: Link, fs: seq<Frame>): Link
    decreases |fs|
  {
    if fs == [] then l else SentAll(Sent(l, fs[0]), fs[1..])
  }

  /** The single caller may write these, one after the other: it never writes while it waits. */
  predicate MaySend(l: Link, fs: seq<Frame>)
    decreases |fs|
  {
    fs == [] || (l.phase.Free? && MaySend(Sent(l, fs[0]), fs[1..]))
  }

  ghost predicate Enabled(l: Link, step: Step) {
    match step
    case Send(frame) => l.phase.Free?
    case Serve(turns, _, arriving) =>
      && l.rx != [] && Prompt(turns) && MaySend(l, arriving)
      && Handle(l.rx, turns, 0).arrived == EncodeAll(arriving)
    case Read => l.phase.Waiting? && l.tx != []
  }

  /** What a handled request does to everything but the socket's own bytes. */
  function Served(l: Link, outcome: Outcome, buttons: Buttons): Link {
    match outcome
    case Executes(r) =>
      var l' := l.(frames := if l.frames == [] then [] else l.frames[1..]);
      if r.GetBtnStateReq? then
        match ButtonAnswer(buttons, r.addr, r.idx)
        case Some(state) => l'.(tx := l.tx + ReplyBytes(buttons, r), answers := l.answers + [state])
        case None => l'.(failed := true)
      else l'
    case _ => l
  }

  function Do(l: Link, step: Step): Link {
    match step
    case Send(frame) => Sent(l, frame)
    case Serve(turns, buttons, arriving) =>
      var h := Handle(l.rx, turns, 0);
      SentAll(Served(l, h.outcome, buttons), arriving).(rx := h.queue)
    case Read =>
      var data := Take(l.tx, READ_SIZE);
      if |data| < 4 then l
      else l.(phase := Free, tx := l.tx[|data|..], got := l.got + [FromLe32(data[..4])])
  }

  function QueryOf(r: Request): Query
    requires r.GetBtnStateReq?
  {
    Query(r.addr, r.idx)
  }

  ghost predicate NoQuery(fs: seq<Frame>) {
    forall i :: 0 <= i < |fs| ==> !fs[i].req.GetBtnStateReq?
  }

  /** The query is the last request under way. */
  ghost predicate QueryPending(l: Link) {
    && l.frames != [] && l.asked != []
    && (forall i :: 0 <= i < |l.frames| - 1 ==> !l.frames[i].req.GetBtnStateReq?)
    && l.frames[|l.frames| - 1].req.GetBtnStateReq?
    && QueryOf(l.frames[|l.frames| - 1].req) == l.asked[|l.asked| - 1]
    && l.tx == [] && l.answers == l.got && !l.failed
  }

  ghost predicate ReplyPending(l: Link) {
    && l.frames == [] && !l.failed
    && l.answers != [] && l.answers[..|l.answers| - 1] == l.got
    && l.tx == Le32(l.answers[|l.answers| - 1])
  }

  ghost predicate NoReply(l: Link) {
    l.failed && l.frames == [] && l.tx == [] && l.answers == l.got
  }

  ghost predicate Inv(l: Link) {
    && l.rx == EncodeAll(l.frames)
    && match l.phase
       case Free =>
         NoQuery(l.frames) && l.tx == [] && l.answers == l.got && |l.asked| == |l.got| && !l.failed
       case Waiting =>
         |l.asked| == |l.got| + 1 && (QueryPending(l) || ReplyPending(l) || NoReply(l))
  }

  lemma SentKeepsInv(l: Link, f: Frame)
    requires Inv(l) && l.phase.Free?
    ensures Inv(Sent(l, f))
  {
    EncodeAllConcat(l.frames, [f]);
    EncodeOne(f);
  }

  lemma {:induction false} SentAllKeepsInv(l: Link, fs: seq<Frame>)
    requires Inv(l) && MaySend(l, fs)
    ensures Inv(SentAll(l, fs))
    decreases |fs|
  {
    if fs != [] {
      SentKeepsInv(l, fs[0]);
      SentAllKeepsInv(Sent(l, fs[0]), fs[1..]);
    }
  }

  /** Writing touches the request bytes and the bookkeeping of the writer only. */
  lemma {:induction false} SentAllFrame(l: Link, fs: seq<Frame>)
    ensures var l' := SentAll(l, fs);
            && l'.tx == l.tx && l'.answers == l.answers && l'.got == l.got && l'.failed == l.failed
            && l.asked <= l'.asked
    decreases |fs|
  {
    if fs != [] {
      SentAllFrame(Sent(l, fs[0]), fs[1..]);
    }
  }

  /** Where the bytes already in the socket come from does not matter. */
  lemma {:induction false} SentAllBytes(l: Link, q: seq<bv8>, fs: seq<Frame>)
    ensures SentAll(l.(rx := q), fs) == SentAll(l, fs).(rx := q + EncodeAll(fs))
    decreases |fs|
  {
    if fs == [] {
      assert q + [] == q;
    } else {
      var f := fs[0];
      assert Sent(l.(rx := q), f) == Sent(l, f).(rx := q + Encode(f));
      SentAllBytes(Sent(l, f), q + Encode(f), fs[1..]);
      ConcatAssociative(q, Encode(f), EncodeAll(fs[1..]));
    }
  }

  lemma {:induction false} SamePhaseSends(l: Link, l': Link, fs: seq<Frame>)
    requires l.phase == l'.phase
    ensures MaySend(l, fs) <==> MaySend(l', fs)
    decreases |fs|
  {
    if fs != [] {
      SamePhaseSends(Sent(l, fs[0]), Sent(l', fs[0]), fs[1..]);
    }
  }

  /** One handler call: the oldest request is served, then what arrived is appended. */
  lemma ServeIs(l: Link, turns: Schedule, buttons: Buttons, arriving: seq<Frame>) returns (l1: Link)
    requires Inv(l) && Enabled(l, Serve(turns, buttons, arriving))
    ensures l.frames != []
    ensures l1 == Served(l, Executes(l.frames[0].req), buttons).(rx := EncodeAll(l.frames[1..]))
    ensures Do(l, Serve(turns, buttons, arriving)) == SentAll(l1, arriving) && MaySend(l1, arriving)
  {
    var rest := EncodeAll(l.frames[1..]);
    HandleFrame(l.frames[0], rest, turns, 0);
    var served := Served(l, Executes(l.frames[0].req), buttons);
    l1 := served.(rx := rest);
    SentAllBytes(served, rest, arriving);
    SamePhaseSends(l, l1, arriving);
  }

  lemma ServedKeepsInv(l: Link, buttons: Buttons)
    requires Inv(l) && l.frames != []
    ensures Inv(Served(l, Executes(l.frames[0].req), buttons).(rx := EncodeAll(l.frames[1..])))
  {
    if l.frames[0].req.GetBtnStateReq? {
      assert QueryPending(l);
      QueryServed(l, buttons);
    } else {
      DisplayServed(l, buttons);
    }
  }

  /** A display request is taken off the front; a query behind it stays the last. */
  lemma DisplayServed(l: Link, buttons: Buttons)
    requires Inv(l) && l.frames != [] && !l.frames[0].req.GetBtnStateReq?
    ensures Inv(Served(l, Executes(l.frames[0].req), buttons).(rx := EncodeAll(l.frames[1..])))
  {
    var rest := l.frames[1..];
    assert forall i :: 0 <= i < |rest| ==> rest[i] == l.frames[i + 1];
    if l.phase.Waiting? {
      assert QueryPending(l);
    }
  }

  lemma QueryServed(l: Link, buttons: Buttons)
    requires QueryPending(l) && l.frames[0].req.GetBtnStateReq?
    ensures var l' := Served(l, Executes(l.frames[0].req), buttons).(rx := []);
            |l.frames| == 1 && l'.frames == [] && (ReplyPending(l') || NoReply(l'))
  {
  }

  lemma ReadKeepsInv(l: Link)
    requires Inv(l) && Enabled(l, Read)
    ensures Inv(Do(l, Read)) && Do(l, Read).phase.Free? && Do(l, Read).got == l.answers
    ensures Do(l, Read).answers == l.answers && Do(l, Read).asked == l.asked && Do(l, Read).frames == l.frames
  {
    var x := l.answers[|l.answers| - 1];
    Le32RoundTrip(x);
    assert Take(l.tx, READ_SIZE) == Le32(x) && Le32(x)[..4] == Le32(x);
    assert l.got + [x] == l.answers;
  }

  lemma StepKeepsInv(l: Link, step: Step)
    requires Inv(l) && Enabled(l, step)
    ensures Inv(Do(l, step))
  {
    match step
    case Send(frame) => SentKeepsInv(l, frame);
    case Serve(turns, buttons, arriving) =>
      var l1 := ServeIs(l, turns, buttons, arriving);
      ServedKeepsInv(l, buttons);
      SentAllKeepsInv(l1, arriving);
    case Read => ReadKeepsInv(l);
  }

  ghost predicate Runs(l: Link, steps: seq<Step>)
    decreases |steps|
  {
    steps == [] || (Enabled(l, steps[0]) && Runs(Do(l, steps[0]), steps[1..]))
  }

  function After(l: Link, steps: seq<Step>): Link
    decreases |steps|
  {
    if steps == [] then l else After(Do(l, steps[0]), steps[1..])
  }

  lemma {:induction false} RunKeepsInv(l: Link, steps: seq<Step>)
    requires Inv(l) && Runs(l, steps)
    ensures Inv(After(l, steps))
    decreases |steps|
  {
    if steps != [] {
      StepKeepsInv(l, steps[0]);
      RunKeepsInv(Do(l, steps[0]), steps[1..]);
    }
  }

  // --------------------------------------------- answers belong to queries

  /** A query the daemon answered, with the buttons as they were when it did. */
  datatype Answered = Answered(query: Query, buttons: Buttons)

  function AnsweredBy(l: Link, step: Step): seq<Answered> {
    if step.Serve? && l.frames != [] && l.frames[0].req.GetBtnStateReq?
       && ButtonAnswer(step.buttons, l.frames[0].req.addr, l.frames[0].req.idx).Some?
    then [Answered(QueryOf(l.frames[0].req), step.buttons)]
    else []
  }

  /** The queries answered in a run, in order. */
  function AllAnswered(l: Link, steps: seq<Step>): seq<Answered>
    decreases |steps|
  {
    if steps == [] then [] else AnsweredBy(l, steps[0]) + AllAnswered(Do(l, steps[0]), steps[1..])
  }

  /** Answer k from here on belongs to query k from here on. */
  ghost predicate Matches(qs: seq<Answered>, from: nat, asked: seq<Query>, answers: seq<bv32>) {
    && |answers| == from + |qs| <= |asked|
    && forall k :: 0 <= k < |qs| ==>
         && qs[k].query == asked[from + k]
         && ButtonAnswer(qs[k].buttons, qs[k].query.addr, qs[k].query.idx) == Some(answers[from + k])
  }

  /** The part of a handler call that answers. */
  lemma ServedMatches(l: Link, buttons: Buttons, qs: seq<Answered>)
    requires Inv(l) && l.frames != []
    requires var r := l.frames[0].req;
             qs == if r.GetBtnStateReq? && ButtonAnswer(buttons, r.addr, r.idx).Some?
                   then [Answered(QueryOf(r), buttons)] else []
    ensures var l1 := Served(l, Executes(l.frames[0].req), buttons);
            l1.asked == l.asked && l.answers <= l1.answers && Matches(qs, |l.answers|, l.asked, l1.answers)
  {
    if l.frames[0].req.GetBtnStateReq? {
      assert QueryPending(l) && |l.frames| == 1;
    }
  }

  lemma ServeMatches(l: Link, turns: Schedule, buttons: Buttons, arriving: seq<Frame>)
    requires Inv(l) && Enabled(l, Serve(turns, buttons, arriving))
    ensures var l', qs := Do(l, Serve(turns, buttons, arriving)), AnsweredBy(l, Serve(turns, buttons, arriving));
            && l.asked <= l'.asked && l.answers <= l'.answers
            && Matches(qs, |l.answers|, l'.asked, l'.answers)
  {
    var l1 := ServeIs(l, turns, buttons, arriving);
    ServedMatches(l, buttons, AnsweredBy(l, Serve(turns, buttons, arriving)));
    SentAllFrame(l1, arriving);
  }

  lemma StepMatches(l: Link, step: Step)
    requires Inv(l) && Enabled(l, step)
    ensures var l' := Do(l, step);
            && l.asked <= l'.asked && l.answers <= l'.answers
            && Matches(AnsweredBy(l, step), |l.answers|, l'.asked, l'.answers)
  {
    match step
    case Send(frame) =>
    case Serve(turns, buttons, arriving) => ServeMatches(l, turns, buttons, arriving);
    case Read => ReadKeepsInv(l);
  }

  lemma {:induction false} RunMatches(l: Link, steps: seq<Step>)
    requires Inv(l) && Runs(l, steps)
    ensures var l' := After(l, steps);
            && l.asked <= l'.asked && l.answers <= l'.answers
            && Matches(AllAnswered(l, steps), |l.answers|, l'.asked, l'.answers)
    decreases |steps|
  {
    if steps == [] {
      RunKeepsInv(l, steps);
    } else {
      var l1 := Do(l, steps[0]);
      StepKeepsInv(l, steps[0]);
      StepMatches(l, steps[0]);
      RunMatches(l1, steps[1..]);
      MatchesConcat(AnsweredBy(l, steps[0]), AllAnswered(l1, steps[1..]), |l.answers|,
                    l1.asked, l1.answers, After(l, steps).asked, After(l, steps).answers);
    }
  }

  lemma MatchesConcat(a: seq<Answered>, b: seq<Answered>, from: nat,
                      asked: seq<Query>, answers: seq<bv32>, asked': seq<Query>, answers': seq<bv32>)
    requires Matches(a, from, asked, answers) && Matches(b, |answers|, asked', answers')
    requires asked <= asked' && answers <= answers'
    ensures Matches(a + b, from, asked', answers')
  {
  }

  /** In every run, writes arriving during handler calls included: the n-th state the client
      reads is the daemon's answer to its n-th query, about the device and
      button that query named and as the buttons were when it was served; at most one reply
      is ever under way and it is four bytes, and none is left when the client is not
      waiting. */
  lemma EveryRunInStep(steps: seq<Step>)
    requires Runs(START, steps)
    ensures var l, qs := After(START, steps), AllAnswered(START, steps);
            && |qs| == |l.answers| && l.got <= l.answers && |l.got| <= |l.answers| <= |l.got| + 1
            && |l.answers| <= |l.asked|
            && (forall k :: 0 <= k < |qs| ==>
                  && qs[k].query == l.asked[k]
                  && ButtonAnswer(qs[k].buttons, l.asked[k].addr, l.asked[k].idx) == Some(l.answers[k]))
            && (l.tx == [] || |l.tx| == 4)
            && (l.phase.Free? ==> l.tx == [] && l.got == l.answers && |l.got| == |l.asked|)
  {
    RunKeepsInv(START, steps);
    RunMatches(START, steps);
  }

  // -------------------------------------------------------- who is blocked

  lemma CanServe(l: Link, turns: Schedule, buttons: Buttons)
    requires l.rx != [] && Prompt(turns) && Quiet(turns)
    ensures Enabled(l, Serve(turns, buttons, []))
  {
    QuietHandle(l.rx, turns, 0);
  }

  /** In a reachable state nothing more can happen exactly when a button read has failed. */
  lemma StuckIffFailed(l: Link)
    requires Inv(l)
    ensures (forall step :: !Enabled(l, step)) <==> l.failed
  {
    if !l.failed {
      if l.phase.Free? {
        assert Enabled(l, Send(Frame([0, 0, 0], ClearReq(0))));
      } else if l.tx != [] {
        assert Enabled(l, Read);
      } else {
        CanServe(l, Calm(), (a, i) => None);
      }
    }
  }

  /** Exactly when a query blocks its client for good: when the button it names cannot be
      read, be it past the last one or failing, at the time the query is served. */
  lemma QueryBlocksIff(l: Link, turns: Schedule, buttons: Buttons, arriving: seq<Frame>)
    requires Inv(l) && Enabled(l, Serve(turns, buttons, arriving))
    requires l.frames != [] && l.frames[0].req.GetBtnStateReq?
    ensures var r := l.frames[0].req;
            (forall step :: !Enabled(Do(l, Serve(turns, buttons, arriving)), step)) <==>
            ButtonAnswer(buttons, r.addr, r.idx).None?
  {
    var l1 := ServeIs(l, turns, buttons, arriving);
    StepKeepsInv(l, Serve(turns, buttons, arriving));
    SentAllFrame(l1, arriving);
    StuckIffFailed(Do(l, Serve(turns, buttons, arriving)));
    assert QueryPending(l);
  }

  /** The concrete case: an index past the last button. */
  lemma InvalidIndexBlocks(addr: bv8, idx: bv32, pad: Pad, buttons: Buttons)
    requires idx >= 3
    ensures var steps := [Send(Frame(pad, GetBtnStateReq(addr, idx))), Serve(Calm(), buttons, [])];
            Runs(START, steps) && forall step :: !Enabled(After(START, steps), step)
  {
    var ask, serve := Send(Frame(pad, GetBtnStateReq(addr, idx))), Serve(Calm(), buttons, []);
    var l := Do(START, ask);
    StepKeepsInv(START, ask);
    CanServe(l, Calm(), buttons);
    assert l.frames == [Frame(pad, GetBtnStateReq(addr, idx))];
    QueryBlocksIff(l, Calm(), buttons, []);
    assert [ask, serve][1..] == [serve] && [serve][1..] == [];
    assert After(START, [ask, serve]) == After(l, [serve]) == Do(l, serve);
  }
}
