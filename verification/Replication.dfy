/** From the device's button events to the host's copy: packets on the interrupt endpoint,
    delivered in order. */
module Replication {
  import opened Wrappers
  import opened Wire
  import opened Buttons

  type Packet = b: seq<bv8> | |b| == 8 witness seq(8, _ => 0)

  /** The event struct as the callback writes it: state, then index. */
  function EncodeEvent(e: Event): Packet {
    Le32(e.state) + Le32(IndexBits(e.idx))
  }

  function IndexBits(i: Index): bv32 {
    if i == 0 then 0 else if i == 1 then 1 else 2
  }

  /** The index the host reads; events on the wire are the device's own, so it is valid. */
  function EventIndex(p: Packet): bv32 {
    FromLe32(p[4..])
  }

  function EventState(p: Packet): bv32 {
    FromLe32(p[..4])
  }

  lemma EventRoundTrip(e: Event)
    ensures var p := EncodeEvent(e); EventState(p) == e.state && EventIndex(p) == IndexBits(e.idx)
  {
    assert EncodeEvent(e)[..4] == Le32(e.state) && EncodeEvent(e)[4..] == Le32(IndexBits(e.idx));
    Le32RoundTrip(e.state);
    Le32RoundTrip(IndexBits(e.idx));
  }

  /** An event in bytes: the state in bytes 0 to 3, the index, 0 to 2, in bytes 4 to 7, the lowest
      byte first. */
  lemma EventLayout(e: Event)
    ensures var p := EncodeEvent(e);
            && e.state == p[0] as bv32 + 0x100 * (p[1] as bv32) + 0x10000 * (p[2] as bv32) + 0x1000000 * (p[3] as bv32)
            && p[4] == (if e.idx == 0 then 0 else if e.idx == 1 then 1 else 2) && p[5] == p[6] == p[7] == 0
  {
    Le32Digits(e.state);
    Le32Small(IndexBits(e.idx));
  }

  /** What a packet does to the copy of a button, in bytes. */
  lemma StoreBytes(host: States, p: Packet, i: Index)
    ensures Store(host, p)[i] ==
            if p[4] == (if i == 0 then 0 else if i == 1 then 1 else 2) && p[5] == p[6] == p[7] == 0
            then p[0] as bv32 + 0x100 * (p[1] as bv32) + 0x10000 * (p[2] as bv32) + 0x1000000 * (p[3] as bv32)
            else host[i]
  {
    StateDigits(p);
    IndexDigits(p);
  }

  lemma StateDigits(p: Packet)
    ensures EventState(p) ==
            p[0] as bv32 + 0x100 * (p[1] as bv32) + 0x10000 * (p[2] as bv32) + 0x1000000 * (p[3] as bv32)
  {
    assert p[..4] == [p[0], p[1], p[2], p[3]];
    FromDigits(p[0], p[1], p[2], p[3]);
  }

  lemma IndexDigits(p: Packet)
    ensures EventIndex(p) == 0 <==> p[4] == 0 && p[5] == p[6] == p[7] == 0
    ensures EventIndex(p) == 1 <==> p[4] == 1 && p[5] == p[6] == p[7] == 0
    ensures EventIndex(p) == 2 <==> p[4] == 2 && p[5] == p[6] == p[7] == 0
  {
    assert p[4..] == [p[4], p[5], p[6], p[7]];
    SmallDigits(p[4], p[5], p[6], p[7]);
  }

  lemma SmallDigits(a: bv8, b: bv8, c: bv8, d: bv8)
    ensures FromLe32([a, b, c, d]) == 0 <==> a == 0 && b == c == d == 0
    ensures FromLe32([a, b, c, d]) == 1 <==> a == 1 && b == c == d == 0
    ensures FromLe32([a, b, c, d]) == 2 <==> a == 2 && b == c == d == 0
  {
  }

  /** The completion handler's store; an index that names no button hits none. */
  function Store(host: States, p: Packet): States {
    var i := EventIndex(p);
    if i == 0 then host[0 := EventState(p)]
    else if i == 1 then host[1 := EventState(p)]
    else if i == 2 then host[2 := EventState(p)]
    else host
  }

  lemma StoreEvent(host: States, e: Event)
    ensures Store(host, EncodeEvent(e)) == host[e.idx := e.state]
  {
    EventRoundTrip(e);
  }

  /** The host copy once everything in flight has been delivered. */
  function Settled(flight: seq<Packet>, host: States): States {
    if flight == [] then host else Settled(flight[1..], Store(host, flight[0]))
  }

  /** The device's stored states, the events on their way, the host's copy, and whether the
      host's interrupt URB is queued; while it is not, nothing is fetched. */
  datatype Link = Link(prev: States, flight: seq<Packet>, host: States, submitted: bool)

  /** Start: both sides all released, nothing in flight, the URB submitted. */
  const START: Link := Link(RELEASED_ALL, [], RELEASED_ALL, true)

  /** Success delivers the oldest event, an error loses it, an unlinked URB fetched none. */
  datatype UrbStatus = Success | Unlinked | Error

  datatype Step =
    | Observes(r: Reading)     // a query, its event written to the endpoint
    | WriteFails(r: Reading)   // a query whose event cannot be written
    | Completes(status: UrbStatus, resubmits: bool)

  /** Detection and the callback: the stored state is updated before the event is written. */
  function AfterReading(l: Link, r: Reading, works: bool): Link {
    if IsChange(l.prev, r) then
      l.(prev := l.prev[r.idx := r.sample.value],
         flight := l.flight + if works && r.heard then [EncodeEvent(Event(r.sample.value, r.idx))] else [])
    else l
  }

  /** The handler resubmits the URB except when it was unlinked, and that may fail. */
  function AfterCompletion(l: Link, status: UrbStatus, resubmits: bool): Link {
    match status
    case Success =>
      if l.flight == [] then l
      else l.(flight := l.flight[1..], host := Store(l.host, l.flight[0]), submitted := resubmits)
    case Unlinked => l.(submitted := false)
    case Error =>
      l.(flight := if l.flight == [] then [] else l.flight[1..], submitted := resubmits)
  }

  function Do(l: Link, step: Step): Link {
    match step
    case Observes(r) => AfterReading(l, r, true)
    case WriteFails(r) => AfterReading(l, r, false)
    case Completes(status, resubmits) => if l.submitted then AfterCompletion(l, status, resubmits) else l
  }

  predicate Lossless(step: Step) {
    (step.Observes? && step.r.heard) || step == Completes(Success, true)
  }

  /** What the host copy will be if nothing else happens. */
  function Eventually(l: Link): States {
    if l.submitted then Settled(l.flight, l.host) else l.host
  }

  /** Applying what is in flight, in order, gives the device's state. */
  ghost predicate Replicates(l: Link) {
    l.submitted && Settled(l.flight, l.host) == l.prev
  }

  lemma {:induction false} SettledAppend(flight: seq<Packet>, host: States, p: Packet)
    ensures Settled(flight + [p], host) == Store(Settled(flight, host), p)
    decreases |flight|
  {
    if flight == [] {
      assert [p][1..] == [];
    } else {
      assert (flight + [p])[1..] == flight[1..] + [p];
      SettledAppend(flight[1..], Store(host, flight[0]), p);
    }
  }

  lemma LosslessStepReplicates(l: Link, step: Step)
    requires Replicates(l) && Lossless(step)
    ensures Replicates(Do(l, step))
  {
    if step.Observes? && IsChange(l.prev, step.r) {
      var e := Event(step.r.sample.value, step.r.idx);
      SettledAppend(l.flight, l.host, EncodeEvent(e));
      StoreEvent(l.prev, e);
    }
  }

  function After(l: Link, steps: seq<Step>): Link
    decreases |steps|
  {
    if steps == [] then l else After(Do(l, steps[0]), steps[1..])
  }

  /** Button replication: in every lossless run the host copy plus what is in flight is the
      poller's state; so the two agree whenever nothing is in flight. */
  lemma {:induction false} EveryRunReplicates(l: Link, steps: seq<Step>)
    requires Replicates(l) && forall step :: step in steps ==> Lossless(step)
    ensures Replicates(After(l, steps))
    ensures After(l, steps).flight == [] ==> After(l, steps).host == After(l, steps).prev
    decreases |steps|
  {
    if steps != [] {
      LosslessStepReplicates(l, steps[0]);
      EveryRunReplicates(Do(l, steps[0]), steps[1..]);
    }
  }

  function ReadingOf(step: Step): seq<Reading> {
    if step.Completes? then [] else [step.r]
  }

  /** The readings among the steps of a run. */
  function Readings(steps: seq<Step>): seq<Reading> {
    if steps == [] then [] else ReadingOf(steps[0]) + Readings(steps[1..])
  }

  /** The device's side does not depend on what becomes of its events. */
  lemma {:induction false} PrevIsDetected(l: Link, events: seq<Event>, steps: seq<Step>)
    ensures After(l, steps).prev == Detect(Poll(l.prev, events), Readings(steps)).prev
    decreases |steps|
  {
    if steps != [] {
      var step, start := steps[0], Poll(l.prev, events);
      var p := if step.Completes? then start else Observe(start, step.r);
      assert ReadingOf(step)[..0] == [];
      assert Detect(start, ReadingOf(step)) == p;
      assert Do(l, step).prev == p.prev;
      DetectConcat(start, ReadingOf(step), Readings(steps[1..]));
      PrevIsDetected(Do(l, step), p.events, steps[1..]);
    }
  }

  /** In every run, whatever is lost, the device's stored state of a button is the last valid
      sample it took of it. */
  lemma PrevIsLastSample(steps: seq<Step>, i: Index)
    ensures After(START, steps).prev[i] == LastOr(History(Readings(steps), i), BTN_RELEASED)
  {
    PrevIsDetected(START, [], steps);
    DetectorCorrect(Readings(steps), i);
  }

  /** From the pin to the host: when nothing is in flight the host copy of a button is the
      last valid sample the device took of it. */
  lemma HostSeesLastSample(steps: seq<Step>, i: Index)
    requires forall step :: step in steps ==> Lossless(step)
    requires After(START, steps).flight == []
    ensures After(START, steps).host[i] == LastOr(History(Readings(steps), i), BTN_RELEASED)
  {
    EveryRunReplicates(START, steps);
    PrevIsLastSample(steps, i);
  }

  // ----------------------------------------------------------------- losses

  /** The two sides will agree on button i once everything that can still be delivered is. */
  ghost predicate AgreesOn(l: Link, i: Index) {
    Eventually(l)[i] == l.prev[i]
  }

  /** Some packet in flight is about button i. */
  ghost predicate Mentioned(flight: seq<Packet>, i: Index) {
    exists k :: 0 <= k < |flight| && EventIndex(flight[k]) == IndexBits(i)
  }

  lemma StoreOn(host: States, p: Packet, i: Index)
    ensures Store(host, p)[i] == if EventIndex(p) == IndexBits(i) then EventState(p) else host[i]
  {
  }

  /** For one button only the packets about it matter, and the first of them already makes
      the starting value irrelevant. */
  lemma {:induction false} SettledOn(flight: seq<Packet>, host: States, host': States, i: Index)
    ensures if Mentioned(flight, i)
            then Settled(flight, host)[i] == Settled(flight, host')[i]
            else Settled(flight, host)[i] == host[i]
    decreases |flight|
  {
    if flight != [] {
      var p, rest := flight[0], flight[1..];
      StoreOn(host, p, i);
      StoreOn(host', p, i);
      SettledOn(rest, Store(host, p), Store(host', p), i);
      if Mentioned(rest, i) {
        var k :| 0 <= k < |rest| && EventIndex(rest[k]) == IndexBits(i);
        assert flight[k + 1] == rest[k];
      } else if EventIndex(p) == IndexBits(i) {
        SettledOn(rest, Store(host', p), Store(host, p), i);
      } else {
        assert forall k :: 0 <= k < |flight| ==> flight[k] == if k == 0 then p else rest[k - 1];
        assert !Mentioned(flight, i);
      }
    }
  }

  /** A failed endpoint write, or a change that finds no callback, always leaves the button it was
      about out of step, and no other. */
  lemma FailedWriteDiverges(l: Link, step: Step, i: Index)
    requires step.WriteFails? || (step.Observes? && !step.r.heard)
    requires Replicates(l) && IsChange(l.prev, step.r)
    ensures AgreesOn(Do(l, step), i) <==> i != step.r.idx
  {
    assert l.flight + [] == l.flight;
  }

  /** A completion with an error loses the oldest event. If the URB goes out again, a button is
      still in step exactly when the lost event was not about it, or a later one about it is
      in flight, or the lost one changed nothing; if not, when the host has its state already. */
  lemma LostEventIff(l: Link, resubmits: bool, i: Index)
    requires Replicates(l) && l.flight != []
    ensures AgreesOn(Do(l, Completes(Error, resubmits)), i) <==>
            if resubmits
            then EventIndex(l.flight[0]) != IndexBits(i) || Mentioned(l.flight[1..], i)
                 || EventState(l.flight[0]) == l.host[i]
            else l.host[i] == l.prev[i]
  {
    var p, rest := l.flight[0], l.flight[1..];
    StoreOn(l.host, p, i);
    SettledOn(rest, l.host, Store(l.host, p), i);
    SettledOn(rest, Store(l.host, p), l.host, i);
  }

  /** Once the URB is not queued any more the host's copy never changes again. */
  lemma {:induction false} Frozen(l: Link, steps: seq<Step>)
    requires !l.submitted
    ensures After(l, steps).host == l.host && !After(l, steps).submitted
    decreases |steps|
  {
    if steps != [] {
      Frozen(Do(l, steps[0]), steps[1..]);
    }
  }

  lemma {:induction false} AfterConcat(l: Link, a: seq<Step>, b: seq<Step>)
    ensures After(l, a + b) == After(After(l, a), b)
    decreases |a|
  {
    if a == [] {
      assert a + b == b;
    } else {
      assert (a + b)[1..] == a[1..] + b;
      AfterConcat(Do(l, a[0]), a[1..], b);
    }
  }

  /** An unlinked URB, at any moment of any run, and whatever follows: the host's copy stays
      what it was then, so a button agrees exactly when its last valid sample is that. */
  lemma UnlinkedIff(before: seq<Step>, resubmits: bool, later: seq<Step>, i: Index)
    requires After(START, before).submitted
    ensures var steps := before + ([Completes(Unlinked, resubmits)] + later);
            && After(START, steps).host == After(START, before).host
            && (AgreesOn(After(START, steps), i) <==>
                After(START, before).host[i] == LastOr(History(Readings(steps), i), BTN_RELEASED))
  {
    var unlink := [Completes(Unlinked, resubmits)];
    AfterConcat(START, before, unlink + later);
    assert (unlink + later)[1..] == later;
    Frozen(Do(After(START, before), unlink[0]), later);
    PrevIsLastSample(before + (unlink + later), i);
  }

  /** The concrete case: unlinked before the first press, the host never learns of it. */
  lemma UnlinkedMissesPress(i: Index, resubmits: bool)
    ensures var l := After(START, [Completes(Unlinked, resubmits), Observes(Reading(i, Some(BTN_PRESSED), true))]);
            l.prev[i] == BTN_PRESSED && l.host[i] == BTN_RELEASED && !AgreesOn(l, i)
  {
    var press := Observes(Reading(i, Some(BTN_PRESSED), true));
    assert [Completes(Unlinked, resubmits), press][1..] == [press] && [press][1..] == [];
    var l := Do(START, Completes(Unlinked, resubmits));
    assert After(l, [press]) == Do(l, press);
  }

  /** Whatever was lost before, the next change of a button that is written brings it back in
      step, exactly if its event can still be fetched or the host happens to have its state. */
  lemma ChangeResynchronises(l: Link, r: Reading)
    requires IsChange(l.prev, r) && r.heard
    ensures AgreesOn(Do(l, Observes(r)), r.idx) <==> l.submitted || l.host[r.idx] == r.sample.value
  {
    var e := Event(r.sample.value, r.idx);
    SettledAppend(l.flight, l.host, EncodeEvent(e));
    StoreEvent(Settled(l.flight, l.host), e);
  }

  // --------------------------------------------------------- the host driver

  const ENOMEM: int := 12

  /** The index of the first proc entry that cannot be created, or the count. */
  function FirstFailure(creates: seq<bool>): (n: nat)
    ensures n <= |creates| && (forall k :: 0 <= k < n ==> creates[k]) && (n < |creates| ==> !creates[n])
  {
    if creates == [] || !creates[0] then 0 else 1 + FirstFailure(creates[1..])
  }

  class HostContext {
    const lastBtnState: array<bv32>
    var submitted: bool    // the interrupt URB is queued again
    var stray: seq<Packet> // events whose index names no button

    constructor ()
      ensures Valid() && fresh(lastBtnState) && States() == RELEASED_ALL && submitted && stray == []
    {
      lastBtnState := new bv32[BUTTONS](_ => BTN_RELEASED);
      submitted, stray := true, [];
    }

    ghost predicate Valid()
      reads this
    {
      lastBtnState.Length == BUTTONS
    }

    ghost function States(): States
      requires Valid()
      reads this, lastBtnState
    {
      lastBtnState[..]
    }

    /** mmlcd_proc_init: every button released, up to the first entry that cannot be created. */
    method ProcInit(creates: seq<bool>) returns (res: int)
      requires Valid() && |creates| == BUTTONS
      modifies lastBtnState
      ensures Valid()
      ensures var n := FirstFailure(creates);
              && res == (if n == 3 then 0 else -12)
              && States() == [0, 0, 0][..n] + old(States())[n..]
    {
      ghost var was := States();
      for idx := 0 to BUTTONS
        invariant Valid() && forall k :: 0 <= k < idx ==> lastBtnState[k] == BTN_RELEASED && creates[k]
        invariant lastBtnState[idx..] == was[idx..]
      {
        if !creates[idx] {
          assert lastBtnState[..] == RELEASED_ALL[..idx] + was[idx..];
          return -ENOMEM;
        }
        lastBtnState[idx] := BTN_RELEASED;
      }
      res := 0;
    }

    /** The completion handler of the interrupt URB. */
    method IntInIrq(status: UrbStatus, data: Packet, resubmits: bool)
      requires Valid()
      modifies this`submitted, this`stray, lastBtnState
      ensures Valid()
      ensures States() == if status.Success? then Store(old(States()), data) else old(States())
      ensures submitted == (!status.Unlinked? && resubmits)
      ensures forall prev, flight ::
        var l := AfterCompletion(Link(prev, [data] + flight, old(States()), true), status, resubmits);
        l.host == States() && l.submitted == submitted
      ensures stray == old(stray) + if status.Success? && EventIndex(data) >= BTN_COUNT then [data] else []
    {
      match status {
        case Success =>
          StoreState(EventIndex(data), EventState(data));
          if EventIndex(data) >= BTN_COUNT { stray := stray + [data]; }
          submitted := resubmits;
        case Unlinked =>
          submitted := false;
        case Error =>
          submitted := resubmits;
      }
    }

    method StoreState(idx: bv32, state: bv32)
      requires Valid()
      modifies lastBtnState
      ensures Valid()
      ensures States() == if idx == 0 then old(States())[0 := state]
                          else if idx == 1 then old(States())[1 := state]
                          else if idx == 2 then old(States())[2 := state] else old(States())
    {
      if idx < BTN_COUNT {
        var i: nat := if idx == 0 then 0 else if idx == 1 then 1 else 2;
        lastBtnState[i] := state;
      }
    }
  }
}
