/** The whole way of a button: pin, device daemon, poll thread, interrupt endpoint, the host's
    copy, its proc entry, the host daemon's answer and the read of a client. */
module ButtonPath {
  import opened Wrappers
  import opened Seqs
  import opened Wire
  import opened Stream
  import opened Cmds
  import H = Hal
  import opened Buttons
  import opened Replication
  import R = Replication
  import P = ProcPath
  import K = Lockstep

  // ------------------------------------------------------------ device side

  /** The buttons pull their pins low. */
  type Pins = Index -> bool

  function PinState(level: bool): bv32 {
    if level then BTN_RELEASED else BTN_PRESSED
  }

  /** What the device daemon reads: the pin, whatever the address. */
  function PinButtons(pins: Pins): H.Buttons {
    (addr, idx) => if idx < BTN_COUNT then Some(PinState(pins(IndexOf(idx)))) else None
  }

  function IndexOf(idx: bv32): Index
    requires idx < BTN_COUNT
  {
    if idx == 0 then 0 else if idx == 1 then 1 else 2
  }

  lemma IndexOfBits(i: Index)
    ensures IndexBits(i) < BTN_COUNT && IndexOf(IndexBits(i)) == i
  {
    assert i == 0 || i == 1 || i == 2;
  }

  // ---------------------------------------------------------------- queries

  /** The caller is free and has nothing under way. */
  ghost predicate Idle(l: K.Link) {
    K.Inv(l) && l.phase.Free? && l.frames == []
  }

  /** One query on a connection: asked, served and read. */
  function QueryRun(f: Frame, turns: Schedule, buttons: H.Buttons): seq<K.Step> {
    [K.Send(f), K.Serve(turns, buttons, []), K.Read]
  }

  lemma Asked(l: K.Link, f: Frame, turns: Schedule, buttons: H.Buttons)
    requires Idle(l) && f.req.GetBtnStateReq? && Prompt(turns) && Quiet(turns)
    ensures var l' := K.Do(l, K.Send(f));
            && K.Inv(l') && l'.frames == [f] && l'.phase.Waiting? && l'.answers == l.got
            && K.Enabled(l', K.Serve(turns, buttons, []))
  {
    K.StepKeepsInv(l, K.Send(f));
    assert [] + [f] == [f];
    K.CanServe(K.Do(l, K.Send(f)), turns, buttons);
  }

  lemma Answered(l: K.Link, f: Frame, turns: Schedule, buttons: H.Buttons)
    requires f.req.GetBtnStateReq? && H.ButtonAnswer(buttons, f.req.addr, f.req.idx).Some?
    requires K.Inv(l) && l.frames == [f] && K.Enabled(l, K.Serve(turns, buttons, []))
    ensures var l' := K.Do(l, K.Serve(turns, buttons, []));
            && l'.answers == l.answers + [H.ButtonAnswer(buttons, f.req.addr, f.req.idx).value]
            && K.Inv(l') && l'.phase == l.phase && l'.tx != [] && l'.frames == []
  {
    var served := K.ServeIs(l, turns, buttons, []);
    K.StepKeepsInv(l, K.Serve(turns, buttons, []));
  }

  lemma ThreeSteps(l: K.Link, a: K.Step, b: K.Step, c: K.Step)
    requires K.Enabled(l, a) && K.Enabled(K.Do(l, a), b) && K.Enabled(K.Do(K.Do(l, a), b), c)
    ensures K.Runs(l, [a, b, c]) && K.After(l, [a, b, c]) == K.Do(K.Do(K.Do(l, a), b), c)
  {
    assert [a, b, c][1..] == [b, c] && [b, c][1..] == [c] && [c][1..] == [];
    var l1, l2 := K.Do(l, a), K.Do(K.Do(l, a), b);
    assert K.Runs(l2, [c]) && K.After(l2, [c]) == K.Do(l2, c);
    assert K.Runs(l1, [b, c]) && K.After(l1, [b, c]) == K.After(l2, [c]);
  }

  /** Whatever was asked before on the connection: a query that is answered is a run, its
      caller reads that answer next, and is idle again. */
  lemma QueryRunReads(l: K.Link, f: Frame, turns: Schedule, buttons: H.Buttons)
    requires Idle(l) && Prompt(turns) && Quiet(turns)
    requires f.req.GetBtnStateReq? && H.ButtonAnswer(buttons, f.req.addr, f.req.idx).Some?
    ensures var run := QueryRun(f, turns, buttons);
            && K.Runs(l, run) && Idle(K.After(l, run))
            && K.After(l, run).got == l.got + [H.ButtonAnswer(buttons, f.req.addr, f.req.idx).value]
  {
    var serve := K.Serve(turns, buttons, []);
    var l1 := K.Do(l, K.Send(f));
    Asked(l, f, turns, buttons);
    Answered(l1, f, turns, buttons);
    K.StepKeepsInv(K.Do(l1, serve), K.Read);
    K.ReadKeepsInv(K.Do(l1, serve));
    ThreeSteps(l, K.Send(f), serve, K.Read);
  }

  // ------------------------------------------------------- the poll thread

  /** One look of the poll thread at a button: over its connection to the device daemon in
      the state l, with the pins as they are. */
  datatype Look = Look(l: K.Link, pins: Pins, addr: bv8, pad: Pad, turns: Schedule)

  /** Its query is a run of that connection; the sample is what it reads last. */
  function PinReading(look: Look, i: Index): Reading {
    var f := Frame(look.pad, GetBtnStateReq(look.addr, IndexBits(i)));
    var l' := K.After(look.l, QueryRun(f, look.turns, PinButtons(look.pins)));
    Reading(i, if l'.got == [] then None else Some(l'.got[|l'.got| - 1]), true)
  }

  ghost predicate CanLook(look: Look) {
    Idle(look.l) && Prompt(look.turns) && Quiet(look.turns)
  }

  /** The device daemon answers every look with the level of the pin: 0, released, when it is
      high and 1, pressed, when it is low. */
  lemma PinReadingValid(look: Look, i: Index)
    requires CanLook(look)
    ensures var r := PinReading(look, i);
            r.idx == i && r.sample == Some(if look.pins(i) then 0 else 1) && Valid(r.sample) && r.heard
  {
    IndexOfBits(i);
    QueryRunReads(look.l, Frame(look.pad, GetBtnStateReq(look.addr, IndexBits(i))), look.turns, PinButtons(look.pins));
  }

  // -------------------------------------------------------------- host side

  /** The copies of the states as the proc entries format them. */
  function Numbers(host: States): (ns: seq<nat>)
    ensures |ns| == BUTTONS && forall i :: 0 <= i < BUTTONS ==> ns[i] == host[i] as nat
  {
    seq(BUTTONS, i requires 0 <= i < BUTTONS => host[i] as nat)
  }

  /** What the host daemon reads: the entry of the formatted path. */
  ghost function EntryButtons(devices: P.Devices): H.Buttons
    requires P.WellFormed(devices)
  {
    (addr: bv8, idx: bv32) => Scanned(P.ReadEntry(devices, P.HalPath(addr as nat, idx as nat)))
  }

  function Scanned(number: Option<nat>): Option<bv32> {
    if number.Some? && number.value < 0x1_0000_0000 then Some(number.value as bv32) else None
  }

  /** All devices attached, the one with minor number 0 having this copy. */
  function Attached(others: P.Devices, host: States): P.Devices {
    others[0 := Numbers(host)]
  }

  lemma NumberOfState(v: bv32)
    requires v == BTN_RELEASED || v == BTN_PRESSED
    ensures v as nat < P.Power10(9) && Scanned(Some(v as nat)) == Some(v)
  {
    P.PowerValues();
  }

  lemma IndexNumber(idx: bv32)
    requires idx < BTN_COUNT
    ensures idx as nat == IndexOf(idx) && IndexBits(IndexOf(idx)) == idx
  {
    assert idx == 0 || idx == 1 || idx == 2;
  }

  lemma AttachedWellFormed(others: P.Devices, host: States)
    requires P.WellFormed(others) && TwoValued(host)
    ensures P.WellFormed(Attached(others, host))
  {
    NumbersFit(host);
    var devices := Attached(others, host);
    forall m | m in devices
      ensures m < P.Power10(10) && |devices[m]| == BUTTONS
      ensures forall i :: 0 <= i < BUTTONS ==> devices[m][i] < P.Power10(9)
    {
      if m == 0 { P.PowerValues(); }
    }
  }

  lemma NumbersFit(host: States)
    requires TwoValued(host)
    ensures forall i :: 0 <= i < BUTTONS ==> Numbers(host)[i] < P.Power10(9)
  {
    forall i | 0 <= i < BUTTONS ensures Numbers(host)[i] < P.Power10(9) {
      NumberOfState(host[i]);
    }
  }

  /** The host daemon's answer to any query: the copy of a valid button of address 0, and
      nothing otherwise. */
  lemma EntryAnswer(others: P.Devices, host: States, addr: bv8, idx: bv32)
    requires P.WellFormed(others) && TwoValued(host)
    ensures P.WellFormed(Attached(others, host))
    ensures H.ButtonAnswer(EntryButtons(Attached(others, host)), addr, idx) ==
            if addr == 0 && idx < 3 then Some(host[IndexOf(idx)]) else None
  {
    AttachedWellFormed(others, host);
    if idx < BTN_COUNT {
      IndexNumber(idx);
      EntryRead(Attached(others, host), addr, IndexOf(idx));
      NumberOfState(host[IndexOf(idx)]);
    }
  }

  lemma EntryRead(devices: P.Devices, addr: bv8, i: Index)
    requires P.WellFormed(devices) && 0 in devices
    ensures P.ReadEntry(devices, P.HalPath(addr as nat, i)) == if addr == 0 then Some(devices[0][i]) else None
  {
    assert addr as nat == 0 <==> addr == 0;
    P.ReadBackIff(devices, addr as nat, i);
  }

  // ---------------------------------------------------------- the whole way

  lemma HostTwoValued(steps: seq<Step>)
    requires forall step :: step in steps ==> Lossless(step)
    requires After(R.START, steps).flight == []
    ensures TwoValued(After(R.START, steps).host)
  {
    forall i: Index | true
      ensures After(R.START, steps).host[i] == BTN_RELEASED || After(R.START, steps).host[i] == BTN_PRESSED
    {
      HostSeesLastSample(steps, i);
      HistoryValid(Readings(steps), i);
    }
  }

  /** In a lossless run with nothing in flight, a query of a button at address 0 is answered
      with the last valid sample the device took of it; any other query is not answered. */
  lemma QueryAnswersLastSample(steps: seq<Step>, others: P.Devices, addr: bv8, idx: bv32)
    requires forall step :: step in steps ==> Lossless(step)
    requires After(R.START, steps).flight == [] && P.WellFormed(others)
    ensures var devices := Attached(others, After(R.START, steps).host);
            && P.WellFormed(devices)
            && H.ButtonAnswer(EntryButtons(devices), addr, idx) ==
               if addr == 0 && idx < 3
               then Some(LastOr(History(Readings(steps), IndexOf(idx)), 0)) else None
  {
    HostTwoValued(steps);
    EntryAnswer(others, After(R.START, steps).host, addr, idx);
    if idx < BTN_COUNT {
      HostSeesLastSample(steps, IndexOf(idx));
    }
  }

  // ------------------------------------------------------ from pin to client

  lemma {:induction false} ReadingsConcat(a: seq<Step>, b: seq<Step>)
    ensures Readings(a + b) == Readings(a) + Readings(b)
  {
    if a == [] {
      assert a + b == b;
    } else {
      assert (a + b)[1..] == a[1..] + b;
      ReadingsConcat(a[1..], b);
      ConcatAssociative(ReadingOf(a[0]), Readings(a[1..]), Readings(b));
    }
  }

  /** Readings of other buttons add nothing to a button's history. */
  lemma {:induction false} HistoryOfOthers(h: seq<Reading>, more: seq<Reading>, i: Index)
    requires forall k :: 0 <= k < |more| ==> more[k].idx != i
    ensures History(h + more, i) == History(h, i)
    decreases |more|
  {
    if more == [] {
      assert h + more == h;
    } else {
      var n := |more| - 1;
      assert (h + more)[..|h| + n] == h + more[..n] && (h + more)[|h| + n] == more[n];
      HistoryOfOthers(h, more[..n], i);
      assert History(h, i) + [] == History(h, i);
    }
  }

  lemma LastReadingCounts(h: seq<Reading>, r: Reading, more: seq<Reading>)
    requires Valid(r.sample) && forall k :: 0 <= k < |more| ==> more[k].idx != r.idx
    ensures LastOr(History(h + ([r] + more), r.idx), BTN_RELEASED) == r.sample.value
  {
    ConcatAssociative(h, [r], more);
    HistoryOfOthers(h + [r], more, r.idx);
    assert (h + [r])[..|h|] == h;
  }

  /** A run in which the last look at button i was this one. */
  function LookedAt(before: seq<Step>, look: Look, i: Index, later: seq<Step>): seq<Step> {
    before + ([Observes(PinReading(look, i))] + later)
  }

  lemma LastLook(before: seq<Step>, look: Look, i: Index, later: seq<Step>)
    requires CanLook(look) && forall k :: 0 <= k < |Readings(later)| ==> Readings(later)[k].idx != i
    ensures LastOr(History(Readings(LookedAt(before, look, i, later)), i), 0) == if look.pins(i) then 0 else 1
  {
    var r := PinReading(look, i);
    PinReadingValid(look, i);
    ReadingsConcat(before, [Observes(r)] + later);
    assert ([Observes(r)] + later)[1..] == later;
    LastReadingCounts(Readings(before), r, Readings(later));
  }

  /** From pin to client: in a lossless run with nothing in flight at its end, a client of the
      host asking for a button of address 0 reads 1, pressed, if the pin was low when the poll
      thread last looked at it, and 0, released, if it was high, whatever the other buttons and devices do. */
  lemma PinToClient(before: seq<Step>, look: Look, i: Index, later: seq<Step>,
                    others: P.Devices, l: K.Link, pad: Pad, turns: Schedule)
    requires forall step :: step in LookedAt(before, look, i, later) ==> Lossless(step)
    requires After(R.START, LookedAt(before, look, i, later)).flight == []
    requires CanLook(look) && forall k :: 0 <= k < |Readings(later)| ==> Readings(later)[k].idx != i
    requires P.WellFormed(others) && Idle(l) && Prompt(turns) && Quiet(turns)
    ensures var devices := Attached(others, After(R.START, LookedAt(before, look, i, later)).host);
            && P.WellFormed(devices)
            && var run := QueryRun(Frame(pad, GetBtnStateReq(0, IndexBits(i))), turns, EntryButtons(devices));
               K.Runs(l, run) && K.After(l, run).got == l.got + [if look.pins(i) then 0 else 1]
  {
    var steps := LookedAt(before, look, i, later);
    LastLook(before, look, i, later);
    QueryAnswersLastSample(steps, others, 0, IndexBits(i));
    IndexOfBits(i);
    var devices := Attached(others, After(R.START, steps).host);
    QueryRunReads(l, Frame(pad, GetBtnStateReq(0, IndexBits(i))), turns, EntryButtons(devices));
  }
}
