/** Button changes: how the poll thread finds them and what its events amount to. */
module Buttons {
  import opened Wrappers
  import opened Wire

  const BUTTONS: nat := 3

  type Index = i: nat | i < BUTTONS
  type States = s: seq<bv32> | |s| == BUTTONS witness [BTN_RELEASED, BTN_RELEASED, BTN_RELEASED]

  datatype Event = Event(state: bv32, idx: Index)

  const RELEASED_ALL: States := [BTN_RELEASED, BTN_RELEASED, BTN_RELEASED]

  /** One query of one button: a state, or a failed query; and whether a callback was
      registered when it was made. */
  datatype Reading = Reading(idx: Index, sample: Option<bv32>, heard: bool)

  /** The stored states and the events given to the callback so far. */
  datatype Poll = Poll(prev: States, events: seq<Event>)

  predicate Valid(sample: Option<bv32>) {
    sample.Some? && sample.value < BTN_STATE_INVALID
  }

  function Observe(p: Poll, r: Reading): Poll {
    if IsChange(p.prev, r) then
      Poll(p.prev[r.idx := r.sample.value],
           p.events + if r.heard then [Event(r.sample.value, r.idx)] else [])
    else p
  }

  predicate IsChange(prev: States, r: Reading) {
    Valid(r.sample) && prev[r.idx] != r.sample.value
  }

  /** The detector over a whole history of readings. */
  function Detect(start: Poll, h: seq<Reading>): Poll {
    if h == [] then start else Observe(Detect(start, h[..|h| - 1]), h[|h| - 1])
  }

  const START: Poll := Poll(RELEASED_ALL, [])

  // ------------------------------------------------- what the events mean

  /** The valid samples of one button, in order. */
  function History(h: seq<Reading>, i: Index): seq<bv32> {
    if h == [] then []
    else
      var last := h[|h| - 1];
      History(h[..|h| - 1], i) + if last.idx == i && Valid(last.sample) then [last.sample.value] else []
  }

  function LastOr(s: seq<bv32>, default: bv32): bv32 {
    if s == [] then default else s[|s| - 1]
  }

  /** Consecutive duplicates removed, starting from released. */
  function Changes(s: seq<bv32>): seq<bv32> {
    if s == [] then []
    else
      var before, x := Changes(s[..|s| - 1]), s[|s| - 1];
      if x == LastOr(before, BTN_RELEASED) then before else before + [x]
  }

  /** The states of one button's events. */
  function Of(events: seq<Event>, i: Index): seq<bv32> {
    if events == [] then []
    else
      var last := events[|events| - 1];
      Of(events[..|events| - 1], i) + if last.idx == i then [last.state] else []
  }

  lemma OfAppend(events: seq<Event>, e: Event, i: Index)
    ensures Of(events + [e], i) == Of(events, i) + if e.idx == i then [e.state] else []
  {
    assert (events + [e])[..|events|] == events;
  }

  lemma ChangesAppend(s: seq<bv32>, x: bv32)
    ensures Changes(s + [x]) ==
            if x == LastOr(Changes(s), BTN_RELEASED) then Changes(s) else Changes(s) + [x]
  {
    assert (s + [x])[..|s|] == s;
  }

  /** The changes of a button that found no callback. */
  function Missed(h: seq<Reading>, i: Index): nat {
    if h == [] then 0
    else
      var before, r := h[..|h| - 1], h[|h| - 1];
      Missed(before, i) + if r.idx == i && IsChange(Detect(START, before).prev, r) && !r.heard then 1 else 0
  }

  /** For each button the stored state is the last of its changes, its history with
      consecutive duplicates removed; every change is either reported or missed, and the
      events are exactly the changes, in order, if none is missed. */
  lemma {:induction false} EventsAreChanges(h: seq<Reading>, i: Index)
    ensures Detect(START, h).prev[i] == LastOr(Changes(History(h, i)), BTN_RELEASED)
    ensures |Of(Detect(START, h).events, i)| + Missed(h, i) == |Changes(History(h, i))|
    ensures Missed(h, i) == 0 ==> Of(Detect(START, h).events, i) == Changes(History(h, i))
  {
    if h != [] {
      var before, r := h[..|h| - 1], h[|h| - 1];
      EventsAreChanges(before, i);
      ObserveChanges(Detect(START, before), r, i, History(before, i));
    }
  }

  lemma ObserveChanges(p: Poll, r: Reading, i: Index, s: seq<bv32>)
    requires p.prev[i] == LastOr(Changes(s), BTN_RELEASED)
    ensures var p', s' := Observe(p, r), s + if r.idx == i && Valid(r.sample) then [r.sample.value] else [];
            var change := if r.idx == i && IsChange(p.prev, r) then [r.sample.value] else [];
            && p'.prev[i] == LastOr(Changes(s'), BTN_RELEASED)
            && Changes(s') == Changes(s) + change
            && Of(p'.events, i) == Of(p.events, i) + if r.heard then change else []
  {
    if r.idx == i && Valid(r.sample) {
      ChangesAppend(s, r.sample.value);
    } else {
      assert s + [] == s && Changes(s) + [] == Changes(s);
    }
    EventsOfOne(p, r, i);
  }

  lemma EventsOfOne(p: Poll, r: Reading, i: Index)
    ensures Of(Observe(p, r).events, i) ==
            Of(p.events, i) + if r.heard && r.idx == i && IsChange(p.prev, r) then [r.sample.value] else []
  {
    if IsChange(p.prev, r) && r.heard {
      OfAppend(p.events, Event(r.sample.value, r.idx), i);
    } else {
      assert p.events + [] == p.events && Of(p.events, i) + [] == Of(p.events, i);
    }
  }

  /** Without a callback there are no events; with one all along, no change is missed. */
  lemma {:induction false} HeardOrNot(h: seq<Reading>, i: Index)
    ensures (forall k :: 0 <= k < |h| ==> !h[k].heard) ==> Detect(START, h).events == []
    ensures (forall k :: 0 <= k < |h| ==> h[k].heard) ==> Missed(h, i) == 0
  {
    if h != [] {
      HeardOrNot(h[..|h| - 1], i);
    }
  }

  /** Exactly when the events of a button tell its whole story: when no change of it found
      the callback missing. What was missed is not reported later. */
  lemma EventsCompleteIff(h: seq<Reading>, i: Index)
    ensures Of(Detect(START, h).events, i) == Changes(History(h, i)) <==> Missed(h, i) == 0
  {
    EventsAreChanges(h, i);
  }

  predicate TwoValued(s: seq<bv32>) {
    forall k :: 0 <= k < |s| ==> s[k] == BTN_RELEASED || s[k] == BTN_PRESSED
  }

  /** Samples are 0 or 1. */
  lemma {:induction false} HistoryValid(h: seq<Reading>, i: Index)
    ensures TwoValued(History(h, i))
  {
    if h != [] {
      HistoryValid(h[..|h| - 1], i);
      TwoStates(h[|h| - 1].sample);
    }
  }

  lemma TwoStates(sample: Option<bv32>)
    ensures Valid(sample) ==> sample.value == BTN_RELEASED || sample.value == BTN_PRESSED
  {
    if sample.Some? {
      var v := sample.value;
      assert v < 2 ==> v == 0 || v == 1;
    }
  }

  /** Pressed, released, pressed, and so on. */
  predicate Alternates(d: seq<bv32>) {
    forall k :: 0 <= k < |d| ==> d[k] == if k % 2 == 0 then BTN_PRESSED else BTN_RELEASED
  }

  lemma LastOfAlternating(d: seq<bv32>)
    requires Alternates(d)
    ensures |d| % 2 == 1 <==> LastOr(d, BTN_RELEASED) == BTN_PRESSED
  {
    assert BTN_PRESSED != BTN_RELEASED;
  }

  lemma {:induction false} ChangesAlternate(s: seq<bv32>)
    requires TwoValued(s)
    ensures var d := Changes(s);
            && Alternates(d)
            && LastOr(d, BTN_RELEASED) == LastOr(s, BTN_RELEASED)
  {
    if s != [] {
      ChangesAlternate(s[..|s| - 1]);
    }
  }

  /** Change detector correctness: the stored state is the last valid sample; with a callback
      registered at every change, the events of a button strictly alternate, start with
      pressed, and are odd in number exactly when the stored state is pressed. */
  lemma DetectorCorrect(h: seq<Reading>, i: Index)
    ensures var d, p := Of(Detect(START, h).events, i), Detect(START, h).prev[i];
            && p == LastOr(History(h, i), BTN_RELEASED)
            && (Missed(h, i) == 0 ==> Alternates(d) && (|d| % 2 == 1 <==> p == BTN_PRESSED))
  {
    EventsAreChanges(h, i);
    HistoryValid(h, i);
    ChangesAlternate(History(h, i));
    LastOfAlternating(Changes(History(h, i)));
  }

  // ----------------------------------------------------- the poll thread

  /** One query of a round: what it gave, and whether a callback was registered. */
  datatype Query = Query(sample: Option<bv32>, heard: bool)

  type RoundOf = q: seq<Query> | |q| == BUTTONS witness seq(BUTTONS, _ => Query(None, false))

  /** The readings of one round, buttons in order. */
  function Round(queries: RoundOf, n: nat): (h: seq<Reading>)
    requires n <= BUTTONS
    ensures |h| == n && forall i :: 0 <= i < n ==> h[i] == Reading(i, queries[i].sample, queries[i].heard)
  {
    seq(n, i requires 0 <= i < n => Reading(i, queries[i].sample, queries[i].heard))
  }

  function Rounds(all: seq<RoundOf>): seq<Reading> {
    if all == [] then [] else Rounds(all[..|all| - 1]) + Round(all[|all| - 1], BUTTONS)
  }

  /** Every round is there, every button of it, in order. */
  lemma {:induction false} RoundsAt(all: seq<RoundOf>, k: nat, i: nat)
    requires k < |all| && i < 3
    ensures |Rounds(all)| == 3 * |all|
    ensures Rounds(all)[3 * k + i] == Reading(i, all[k][i].sample, all[k][i].heard)
    decreases |all|
  {
    var before, last := all[..|all| - 1], all[|all| - 1];
    RoundsLength(before);
    if k < |all| - 1 {
      RoundsAt(before, k, i);
    }
    assert Rounds(all) == Rounds(before) + Round(last, BUTTONS);
  }

  lemma {:induction false} RoundsLength(all: seq<RoundOf>)
    ensures |Rounds(all)| == 3 * |all|
  {
    if all != [] {
      RoundsLength(all[..|all| - 1]);
    }
  }

  /** The samples of one button that are states, 0 or 1, in order. */
  function StatesIn(samples: seq<Option<bv32>>): seq<bv32> {
    if samples == [] then []
    else (if samples[0].Some? && samples[0].value <= 1 then [samples[0].value] else []) + StatesIn(samples[1..])
  }

  function Column(all: seq<RoundOf>, i: Index): (samples: seq<Option<bv32>>)
    ensures |samples| == |all| && forall k :: 0 <= k < |all| ==> samples[k] == all[k][i].sample
  {
    seq(|all|, k requires 0 <= k < |all| => all[k][i].sample)
  }

  lemma {:induction false} StatesInAppend(samples: seq<Option<bv32>>, last: Option<bv32>)
    ensures StatesIn(samples + [last]) ==
            StatesIn(samples) + if last.Some? && last.value <= 1 then [last.value] else []
    decreases |samples|
  {
    if samples == [] {
      assert [last][1..] == [];
    } else {
      assert (samples + [last])[1..] == samples[1..] + [last];
      StatesInAppend(samples[1..], last);
    }
  }

  lemma HistoryOfRound(h: seq<Reading>, queries: RoundOf, i: Index)
    ensures History(h + Round(queries, BUTTONS), i) ==
            History(h, i) + if queries[i].sample.Some? && queries[i].sample.value <= 1 then [queries[i].sample.value] else []
  {
    var r := Round(queries, BUTTONS);
    var mine := if queries[i].sample.Some? && queries[i].sample.value <= 1 then [queries[i].sample.value] else [];
    var h1, h2, h3 := h + [r[0]], h + [r[0]] + [r[1]], h + [r[0]] + [r[1]] + [r[2]];
    HistoryAppend(h, r[0], i);
    assert History(h1, i) == History(h, i) + if i == 0 then mine else [];
    HistoryAppend(h1, r[1], i);
    assert History(h2, i) == History(h, i) + if i <= 1 then mine else [];
    HistoryAppend(h2, r[2], i);
    assert History(h3, i) == History(h, i) + mine;
    assert h + r == h3;
  }

  lemma HistoryAppend(h: seq<Reading>, r: Reading, i: Index)
    ensures History(h + [r], i) ==
            if r.idx == i && r.sample.Some? && r.sample.value <= 1 then History(h, i) + [r.sample.value] else History(h, i)
  {
    assert (h + [r])[..|h|] == h;
    assert History(h, i) + [] == History(h, i);
  }

  /** The history of a button over whole rounds is its states in them. */
  lemma {:induction false} HistoryOfRounds(all: seq<RoundOf>, i: Index)
    ensures History(Rounds(all), i) == StatesIn(Column(all, i))
    decreases |all|
  {
    if all != [] {
      var before, last := all[..|all| - 1], all[|all| - 1];
      HistoryOfRounds(before, i);
      HistoryOfRound(Rounds(before), last, i);
      assert Column(all, i) == Column(before, i) + [last[i].sample];
      StatesInAppend(Column(before, i), last[i].sample);
    }
  }

  /** What the poll thread has made of its rounds: for every button the stored state is the last
      state sampled, 0 if there was none, and if a callback was registered at every change the
      events alternate 1, 0, 1 and so on. */
  lemma ThreadSees(all: seq<RoundOf>, i: Index)
    ensures var p, states := Detect(START, Rounds(all)), StatesIn(Column(all, i));
            && p.prev[i] == (if states == [] then 0 else states[|states| - 1])
            && (Missed(Rounds(all), i) == 0 ==>
                  forall k :: 0 <= k < |Of(p.events, i)| ==> Of(p.events, i)[k] == if k % 2 == 0 then 1 else 0)
  {
    HistoryOfRounds(all, i);
    DetectorCorrect(Rounds(all), i);
  }

  /** The rounds that come to pass: those before the flag is first found cleared. */
  function WhileRunning(running: seq<bool>): (n: nat)
    ensures n <= |running| && (forall k :: 0 <= k < n ==> running[k]) && (n < |running| ==> !running[n])
  {
    if running == [] || !running[0] then 0 else 1 + WhileRunning(running[1..])
  }

  lemma {:induction false} DetectConcat(start: Poll, a: seq<Reading>, b: seq<Reading>)
    ensures Detect(start, a + b) == Detect(Detect(start, a), b)
    decreases |b|
  {
    if b == [] {
      assert a + b == a;
    } else {
      var n := |b| - 1;
      assert (a + b)[..|a| + n] == a + b[..n] && (a + b)[|a| + n] == b[n];
      DetectConcat(start, a, b[..n]);
    }
  }

  class PollThread {
    const prev: array<bv32>
    var events: seq<Event>

    constructor ()
      ensures Valid() && fresh(prev) && Now() == START
    {
      prev := new bv32[BUTTONS](_ => BTN_RELEASED);
      events := [];
    }

    ghost predicate Valid()
      reads this
    {
      prev.Length == BUTTONS
    }

    ghost function Now(): Poll
      requires Valid()
      reads this, prev
    {
      Poll(prev[..], events)
    }

    /** One round of queries. The stored state is updated whether or not there is a callback. */
    method PollRound(queries: RoundOf)
      requires Valid()
      modifies this`events, prev
      ensures Valid() && Now() == Detect(old(Now()), Round(queries, BUTTONS))
    {
      ghost var start := Now();
      for btnIdx := 0 to BUTTONS
        invariant Valid() && Now() == Detect(start, Round(queries, btnIdx))
      {
        ghost var p := Now();
        assert Round(queries, btnIdx + 1)[..btnIdx] == Round(queries, btnIdx);
        if queries[btnIdx].sample.Some? && BTN_STATE_INVALID > queries[btnIdx].sample.value {
          var btnState := queries[btnIdx].sample.value;
          if prev[btnIdx] != btnState {
            prev[btnIdx] := btnState;
            if queries[btnIdx].heard {
              events := events + [Event(btnState, btnIdx)];
            }
          }
        }
        assert p.events + [] == p.events;
      }
    }

    /** The thread: rounds until it finds the flag cleared. */
    method Loop(all: seq<RoundOf>, running: seq<bool>)
      requires Valid() && |running| == |all|
      modifies this`events, prev
      ensures Valid() && Now() == Detect(old(Now()), Rounds(all[..WhileRunning(running)]))
    {
      ghost var start := Now();
      assert all[..0] == [];
      var k := 0;
      while k < |all| && running[k]
        invariant k <= |all| && forall j :: 0 <= j < k ==> running[j]
        invariant Valid() && Now() == Detect(start, Rounds(all[..k]))
      {
        assert all[..k + 1][..k] == all[..k];
        PollRound(all[k]);
        DetectConcat(start, Rounds(all[..k]), Round(all[k], BUTTONS));
        k := k + 1;
      }
      assert k == WhileRunning(running);
    }
  }
}
