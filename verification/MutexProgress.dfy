/** What a call on the recursive mutex answers, and that it comes to an end. */
module MutexProgress {
  import opened RecursiveMutex

  /** Another thread has the kernel mutex. */
  predicate Taken(s: State, t: Tid) {
    s.kernel.Held? && s.kernel.holder != t
  }

  ghost predicate CanStep(s: State, t: Tid) {
    exists s' :: Step(s, s', t)
  }

  // ---------- answers ----------

  /** A step from a wait: a free mutex is taken, by `mtx_trylock` always and by the others unless `mtx_timedlock` gives up;
      without it, `mtx_lock` does not return and `mtx_trylock` returns only while another thread has it. */
  lemma WaitAnswers(run: seq<State>, i: nat, t: Tid, c: Call)
    requires IsRun(run) && i < |run| - 1 && Step(run[i], run[i + 1], t) && run[i].threads[t].pc == Wait(c)
    ensures var s, s' := run[i], run[i + 1];
            && (s.kernel.Free? && !c.TimedLock? ==> Holds(s', t) && s'.threads[t].pc.StoreOwner?)
            && (Holds(s', t) <==> s'.threads[t].pc.StoreOwner?)
            && (!Holds(s', t) ==> s'.kernel == s.kernel && s'.threads[t] == s.threads[t].(pc := Idle))
            && (s'.threads[t].pc.Idle? && c.TryLock? ==> Taken(s, t))
            && (s'.threads[t].pc.Idle? ==> !c.Lock?)
  {
    RunInv(run, i);
    assert ThreadOk(run[i], t);
  }

  /** A call ends with the depth it began with, which is that of a failure, or with one more; and with one more exactly when
      the thread has the mutex for it. */
  lemma LockAnswers(run: seq<State>, i: nat, t: Tid)
    requires IsRun(run) && i < |run| - 1 && Step(run[i], run[i + 1], t)
    requires !run[i].threads[t].pc.Idle? && run[i + 1].threads[t].pc.Idle?
    ensures var pc, d, d' := run[i].threads[t].pc, run[i].threads[t].depth, run[i + 1].threads[t].depth;
            && (pc.Increment? || pc.StoreCount? ==> d' == d + 1 && Holds(run[i + 1], t) && run[i + 1].count == d')
            && (!pc.Increment? && !pc.StoreCount? ==> d' == d)
            && (Holds(run[i + 1], t) <==> d' > 0)
  {
    RunInv(run, i);
    RunInv(run, i + 1);
    assert ThreadOk(run[i], t) && ThreadOk(run[i + 1], t);
  }

  // ---------- who can move ----------

  /** A thread can make its next access unless it waits in `mtx_lock` for a mutex that another has. */
  lemma BlockedOnlyInLock(run: seq<State>, i: nat, t: Tid)
    requires IsRun(run) && i < |run| && t in run[i].threads
    ensures CanStep(run[i], t) <==> !(run[i].threads[t].pc == Wait(Lock) && Taken(run[i], t))
  {
    var s := run[i];
    RunInv(run, i);
    assert ThreadOk(s, t);
    var me := s.threads[t];
    match me.pc
    case Idle => assert Step(s, Moved(s, t, LoadOwner(Lock)), t);
    case LoadOwner(c) => assert Step(s, Moved(s, t, if s.owner == t then Increment else Wait(c)), t);
    case Increment => assert Step(s, Settled(s.(count := s.count + 1), t, me.depth + 1), t);
    case Wait(c) =>
      if s.kernel.Free? {
        assert Step(s, Moved(s.(kernel := Held(t, 1)), t, StoreOwner), t);
      } else if !c.Lock? {
        assert Step(s, Settled(s, t, me.depth), t);
      }
    case StoreOwner => assert Step(s, Moved(s.(owner := t), t, StoreCount), t);
    case StoreCount => assert Step(s, Settled(s.(count := 1), t, me.depth + 1), t);
    case Subtract =>
      var left := s.count - 1;
      var s' := if left > 0 then Settled(s.(count := left), t, me.depth) else Moved(s.(count := left), t, ClearOwner);
      assert Step(s, s', t);
    case ClearOwner => assert Step(s, Moved(s.(owner := 0), t, Release), t);
    case Release =>
      assert Step(s, Settled(s.(kernel := Free), t, me.depth), t);
  }

  /** A free mutex can be taken by any call that waits for it. */
  lemma FreeIsTaken(run: seq<State>, i: nat, t: Tid, c: Call)
    requires IsRun(run) && i < |run| && t in run[i].threads && run[i].threads[t].pc == Wait(c) && run[i].kernel.Free?
    ensures exists s' :: Step(run[i], s', t) && Holds(s', t)
  {
    var s' := Moved(run[i].(kernel := Held(t, 1)), t, StoreOwner);
    assert Step(run[i], s', t) && Holds(s', t);
  }

  /** Between calls a thread can begin any of the three locks, and an unlock exactly when its depth is positive. */
  lemma Begins(s: State, t: Tid, c: Call)
    requires t in s.threads && s.threads[t].pc.Idle?
    ensures Step(s, Moved(s, t, LoadOwner(c)), t)
    ensures forall s' :: Step(s, s', t) ==> s'.threads[t].pc.LoadOwner? || s'.threads[t].pc.Subtract?
    ensures (exists s' :: Step(s, s', t) && s'.threads[t].pc.Subtract?) <==> s.threads[t].depth > 0
  {
    var d := s.threads[t].depth;
    if d > 0 {
      assert Step(s, s.(threads := s.threads[t := Thread(Subtract, d - 1)]), t);
    }
  }

  // ---------- calls of a thread alone ----------

  /** A run in which, from some state on, one thread moves alone. */
  ghost predicate Alone(run: seq<State>, from: nat, t: Tid) {
    && IsRun(run) && from < |run| && t in run[from].threads
    && forall i :: from <= i < |run| - 1 ==> Step(run[i], run[i + 1], t)
  }

  ghost predicate At(s: State, t: Tid, pc: Pc, depth: nat) {
    t in s.threads && s.threads[t] == Thread(pc, depth)
  }

  lemma OneStep(run: seq<State>, from: nat, i: nat, t: Tid)
    requires Alone(run, from, t) && from <= i < |run| - 1 && t in run[i].threads
    ensures Step(run[i], run[i + 1], t) && ThreadOk(run[i], t) && t in run[i + 1].threads && ThreadOk(run[i + 1], t)
  {
    RunInv(run, i);
    RunInv(run, i + 1);
  }

  /** With the mutex its own, a lock call of a thread alone succeeds with its second access. */
  lemma OwnLockSucceeds(run: seq<State>, from: nat, t: Tid, c: Call, d: nat)
    requires Alone(run, from, t) && from + 2 < |run| && At(run[from], t, LoadOwner(c), d) && Holds(run[from], t)
    ensures At(run[from + 1], t, Increment, d) && At(run[from + 2], t, Idle, d + 1)
    ensures Holds(run[from + 2], t) && run[from + 2].count == d + 1
  {
    OneStep(run, from, from, t);
    OneStep(run, from, from + 1, t);
  }

  /** With the mutex free, `mtx_lock` and `mtx_trylock` of a thread alone succeed with their fourth access. */
  lemma FreeLockSucceeds(run: seq<State>, from: nat, t: Tid, c: Call, d: nat)
    requires Alone(run, from, t) && from + 4 < |run| && At(run[from], t, LoadOwner(c), d) && run[from].kernel.Free?
    requires !c.TimedLock?
    ensures d == 0 && At(run[from + 1], t, Wait(c), 0) && At(run[from + 2], t, StoreOwner, 0)
    ensures At(run[from + 3], t, StoreCount, 0) && At(run[from + 4], t, Idle, 1)
    ensures Holds(run[from + 4], t) && run[from + 4].owner == t && run[from + 4].count == 1
  {
    OneStep(run, from, from, t);
    OneStep(run, from, from + 1, t);
    OneStep(run, from, from + 2, t);
    OneStep(run, from, from + 3, t);
  }

  /** On a fresh mutex a thread that is alone can take it with either kind of waiting call. */
  lemma FreshIsTaken(t: Tid, c: Call) returns (run: seq<State>)
    requires t != 0 && !c.TimedLock?
    ensures Alone(run, 0, t) && run[0] == State(map[t := Thread(Idle, 0)], 0, 0, Free)
    ensures run[|run| - 1] == State(map[t := Thread(Idle, 1)], t, 1, Held(t, 1))
  {
    var start := State(map[t := Thread(Idle, 0)], 0, 0, Free);
    var begun := State(map[t := Thread(LoadOwner(c), 0)], 0, 0, Free);
    assert IsRun([start]);
    Extended([start], begun, t);
    run := GoesOn([start, begun], t, 4);
    FreeLockSucceeds(run, 1, t, c, 0);
  }

  /** An unlock of a thread alone ends with its first access while the depth stays positive, and else with its third, which
      frees the mutex. */
  lemma UnlockEnds(run: seq<State>, from: nat, t: Tid, d: nat)
    requires Alone(run, from, t) && At(run[from], t, Subtract, d)
    ensures d > 0 && from + 1 < |run| ==> At(run[from + 1], t, Idle, d) && Holds(run[from + 1], t) && run[from + 1].count == d
    ensures d == 0 && from + 3 < |run| ==>
              At(run[from + 1], t, ClearOwner, 0) && At(run[from + 2], t, Release, 0) && At(run[from + 3], t, Idle, 0)
              && run[from + 3].kernel.Free? && run[from + 3].owner == 0
  {
    if from + 1 < |run| {
      OneStep(run, from, from, t);
      if d == 0 && from + 3 < |run| {
        OneStep(run, from, from + 1, t);
        OneStep(run, from, from + 2, t);
      }
    }
  }

  /** There are such runs, as long as wanted: a thread left alone is never stopped inside a call but by another thread's
      mutex. */
  lemma {:induction false} GoesOn(run: seq<State>, t: Tid, n: nat) returns (longer: seq<State>)
    requires IsRun(run) && t in run[|run| - 1].threads && !Taken(run[|run| - 1], t)
    ensures |longer| == |run| + n && longer[..|run|] == run && Alone(longer, |run| - 1, t)
    decreases n
  {
    if n == 0 {
      longer := run;
    } else {
      var last := run[|run| - 1];
      BlockedOnlyInLock(run, |run| - 1, t);
      var s' :| Step(last, s', t);
      var more := run + [s'];
      Extended(run, s', t);
      StaysUntaken(run, s', t);
      longer := GoesOn(more, t, n - 1);
      assert longer[..|run|] == longer[..|more|][..|run|] == run;
      assert longer[|run| - 1] == longer[..|more|][|run| - 1] == last && longer[|run|] == longer[..|more|][|run|] == s';
    }
  }

  lemma Extended(run: seq<State>, s': State, t: Tid)
    requires IsRun(run) && Step(run[|run| - 1], s', t)
    ensures IsRun(run + [s'])
  {
    hide Step, Init;
    var more := run + [s'];
    forall i | 0 <= i < |more| - 1 ensures Next(more[i], more[i + 1]) {
      if i < |run| - 1 { assert more[i] == run[i] && more[i + 1] == run[i + 1]; }
    }
  }

  lemma StaysUntaken(run: seq<State>, s': State, t: Tid)
    requires IsRun(run) && Step(run[|run| - 1], s', t) && !Taken(run[|run| - 1], t)
    ensures t in s'.threads && !Taken(s', t)
  {
  }
}
