/** Registering a callback starts and stops the poll thread. */
module Lifecycle {
  import opened Wrappers

  type Callback = nat
  type ThreadId = nat

  /** The library's statics, and the history of its threads: ids below `started` have been
      created, those in `joined` have been waited for. */
  datatype Lib = Lib(
    callback: Option<Callback>,
    running: bool,
    thread: ThreadId,
    started: nat,
    joined: seq<ThreadId>)

  /** A call, whether thread creation would succeed, and what it leaves in the recorded id if
      it does not. */
  datatype Registration = Registration(callback: Option<Callback>, creates: bool, leaves: ThreadId)

  const UNSET: Lib := Lib(None, false, 0, 0, [])

  function Register(l: Lib, r: Registration): Lib {
    var l' := l.(callback := r.callback);
    if l.callback.Some? then
      if r.callback.None? then l'.(running := false, joined := l.joined + [l.thread]) else l'
    else if r.callback.Some? then
      var l'' := l'.(running := true);
      if r.creates then l''.(thread := l.started, started := l.started + 1) else l''.(thread := r.leaves)
    else l'
  }

  /** A thread that was created and not yet waited for. */
  predicate Alive(l: Lib, t: ThreadId) {
    t < l.started && t !in l.joined
  }

  predicate NoneTwice(s: seq<ThreadId>) {
    forall i, j :: 0 <= i < j < |s| ==> s[i] != s[j]
  }

  /** One poll thread, the recorded one, if there is a callback and none otherwise; the flag
      says which; no thread is joined twice and only created ones are. */
  ghost predicate Consistent(l: Lib) {
    && l.running == l.callback.Some?
    && (forall t :: Alive(l, t) <==> (l.callback.Some? && t == l.thread))
    && NoneTwice(l.joined)
    && (forall t :: t in l.joined ==> t < l.started)
  }

  /** The call would create a thread and cannot. */
  predicate CreationFails(l: Lib, r: Registration) {
    l.callback.None? && r.callback.Some? && !r.creates
  }

  /** A call keeps the library consistent exactly when it does not fail to create a thread. */
  lemma RegisterConsistentIff(l: Lib, r: Registration)
    requires Consistent(l)
    ensures Consistent(Register(l, r)) <==> !CreationFails(l, r)
  {
    var l' := Register(l, r);
    if CreationFails(l, r) {
      assert !Alive(l, l'.thread);
      assert !Alive(l', l'.thread);
    } else if l.callback.Some? && r.callback.None? {
      assert Alive(l, l.thread);
      forall t ensures !Alive(l', t) {
        if t != l.thread { assert !Alive(l, t); }
      }
    } else if l.callback.None? && r.callback.Some? {
      forall t ensures Alive(l', t) <==> t == l'.thread {
        assert !Alive(l, t);
      }
    } else {
      assert forall t :: Alive(l', t) <==> Alive(l, t);
    }
  }

  /** The calls of a history, from a library in which nothing is registered. */
  function RegisterAll(rs: seq<Registration>): Lib {
    if rs == [] then UNSET else Register(RegisterAll(rs[..|rs| - 1]), rs[|rs| - 1])
  }

  ghost predicate AlwaysConsistent(rs: seq<Registration>) {
    forall n :: 0 <= n <= |rs| ==> Consistent(RegisterAll(rs[..n]))
  }

  ghost predicate NoneFails(rs: seq<Registration>) {
    forall n :: 0 <= n < |rs| ==> !CreationFails(RegisterAll(rs[..n]), rs[n])
  }

  lemma StartConsistent()
    ensures Consistent(UNSET)
  {
    assert forall t :: !Alive(UNSET, t);
  }

  lemma OneMoreCall(rs: seq<Registration>, n: nat)
    requires n < |rs|
    ensures RegisterAll(rs[..n + 1]) == Register(RegisterAll(rs[..n]), rs[n])
  {
    assert rs[..n + 1][..n] == rs[..n];
  }

  lemma {:induction false} ConsistentUpTo(rs: seq<Registration>, n: nat)
    requires NoneFails(rs) && n <= |rs|
    ensures Consistent(RegisterAll(rs[..n]))
  {
    StartConsistent();
    if n > 0 {
      ConsistentUpTo(rs, n - 1);
      RegisterConsistentIff(RegisterAll(rs[..n - 1]), rs[n - 1]);
      OneMoreCall(rs, n - 1);
    }
  }

  /** Over any sequence of calls from the start: the library is consistent after each of them
      exactly when none of them fails to create a thread. */
  lemma LifecycleConsistentIff(rs: seq<Registration>)
    ensures AlwaysConsistent(rs) <==> NoneFails(rs)
  {
    if NoneFails(rs) {
      forall n | 0 <= n <= |rs| ensures Consistent(RegisterAll(rs[..n])) {
        ConsistentUpTo(rs, n);
      }
    }
    if AlwaysConsistent(rs) {
      forall n | 0 <= n < |rs| ensures !CreationFails(RegisterAll(rs[..n]), rs[n]) {
        assert Consistent(RegisterAll(rs[..n])) && Consistent(RegisterAll(rs[..n + 1]));
        OneMoreCall(rs, n);
        RegisterConsistentIff(RegisterAll(rs[..n]), rs[n]);
      }
    }
  }

  /** The callback is always the one of the last call, whether or not its thread came to be. */
  lemma LastCallbackCounts(rs: seq<Registration>)
    requires rs != []
    ensures RegisterAll(rs).callback == rs[|rs| - 1].callback
  {
  }

  /** Replacing one callback by another keeps the same thread and starts no other. */
  lemma ReplaceKeepsThread(l: Lib, r: Registration)
    requires Consistent(l) && l.callback.Some? && r.callback.Some?
    ensures var l' := Register(l, r);
            l'.thread == l.thread && l'.started == l.started && l'.joined == l.joined && Alive(l', l'.thread)
  {
    assert Alive(l, l.thread);
  }

  /** After a failed creation the library believes it has a thread: unregistering then waits
      for one that does not exist or has been waited for already, whatever id was left. */
  lemma FailedCreationMisleads(l: Lib, r: Registration, next: Registration)
    requires Consistent(l) && CreationFails(l, r) && next.callback.None?
    ensures var l1 := Register(l, r);
            var l2 := Register(l1, next);
            && l1.running && l1.callback.Some? && (forall t :: !Alive(l1, t))
            && l2.joined == l.joined + [r.leaves]
            && (!NoneTwice(l2.joined) || r.leaves >= l2.started)
  {
    var l1 := Register(l, r);
    var l2 := Register(l1, next);
    assert forall t :: Alive(l1, t) <==> Alive(l, t);
    assert !Alive(l, r.leaves);
    if r.leaves < l.started {
      var i :| 0 <= i < |l.joined| && l.joined[i] == r.leaves;
      assert l2.joined[i] == l2.joined[|l.joined|];
    }
  }

  class Library {
    var callback: Option<Callback>
    var running: bool
    var thread: ThreadId
    var started: nat
    var joined: seq<ThreadId>

    constructor ()
      ensures Now() == UNSET
    {
      callback, running, thread, started, joined := None, false, 0, 0, [];
    }

    ghost function Now(): Lib
      reads this
    {
      Lib(callback, running, thread, started, joined)
    }

    /** pthread_create: a fresh id, or failure and whatever is left in the id. */
    method CreateThread(creates: bool, leaves: ThreadId) returns (failed: bool)
      modifies this`thread, this`started
      ensures failed == !creates
      ensures if creates then thread == old(started) && started == old(started) + 1
              else thread == leaves && started == old(started)
    {
      if creates {
        thread := started;
        started := started + 1;
      } else {
        thread := leaves;
      }
      failed := !creates;
    }

    method RegisterBtnEventCallback(cbk: Option<Callback>, creates: bool, leaves: ThreadId) returns (res: int)
      modifies this
      ensures callback == cbk
      ensures Now() == Register(old(Now()), Registration(cbk, creates, leaves))
      ensures res == if CreationFails(old(Now()), Registration(cbk, creates, leaves)) then -1 else 0
    {
      var prevCbk := callback;
      callback := cbk;
      if prevCbk.Some? {
        if cbk.None? {
          running := false;
          joined := joined + [thread];
        }
      } else {
        if cbk.Some? {
          running := true;
          var failed := CreateThread(creates, leaves);
          if failed { return -1; }
        }
      }
      res := 0;
    }
  }
}
