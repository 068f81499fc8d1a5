/** call_once, one access to a step, any number of threads. */
module CallOnce {

  type Tid = nat

  datatype Pc =
    | Outside
    | TestLoop          // the `while` read of status
    | TestSwitch        // the `switch` read of status
    | Exchange          // the compare-exchange of 0 by 1
    | InitLock | EnterFirst | StoreTwo | Begin | End | StoreThree | LeaveLast
    | EnterWait | LeaveWait
    | Returned

  /** The flag's status and lock (0 while nobody is in it), the thread whose exchange succeeded (0 for none), and how
      often the function has begun and ended. */
  datatype State = State(
    threads: map<Tid, Pc>,
    status: nat,
    ready: bool,
    inside: Tid,
    runner: Tid,
    begun: nat,
    ended: nat)

  ghost predicate Init(s: State) {
    && 0 !in s.threads
    && (forall t :: t in s.threads ==> s.threads[t].Outside?)
    && s.status == 0 && !s.ready && s.inside == 0 && s.runner == 0 && s.begun == 0 && s.ended == 0
  }

  function Moved(s: State, t: Tid, pc: Pc): State {
    s.(threads := s.threads[t := pc])
  }

  /** The state after a thread's next access. */
  function Taken(s: State, t: Tid): State
    requires t in s.threads
  {
    match s.threads[t]
    case Outside => Moved(s, t, TestLoop)
    case TestLoop => Moved(s, t, if s.status < 3 then TestSwitch else Returned)
    case TestSwitch => Moved(s, t, if s.status == 0 then Exchange else if s.status == 2 then EnterWait else TestLoop)
    case Exchange => if s.status == 0 then Moved(s.(status := 1, runner := t), t, InitLock) else Moved(s, t, TestLoop)
    case InitLock => Moved(s.(ready := true), t, EnterFirst)
    case EnterFirst => Moved(s.(inside := t), t, StoreTwo)
    case StoreTwo => Moved(s.(status := 2), t, Begin)
    case Begin => Moved(s.(begun := s.begun + 1), t, End)
    case End => Moved(s.(ended := s.ended + 1), t, StoreThree)
    case StoreThree => Moved(s.(status := 3), t, LeaveLast)
    case LeaveLast => Moved(s.(inside := 0), t, Returned)
    case EnterWait => Moved(s.(inside := t), t, LeaveWait)
    case LeaveWait => Moved(s.(inside := 0), t, TestLoop)
    case Returned => Moved(s, t, TestLoop)
  }

  /** One step of a thread: entering the lock waits until nobody is in it. */
  predicate Step(s: State, s': State, t: Tid) {
    && t in s.threads
    && (s.threads[t].EnterFirst? || s.threads[t].EnterWait? ==> s.inside == 0)
    && s' == Taken(s, t)
  }

  ghost predicate Next(s: State, s': State) {
    exists t :: Step(s, s', t)
  }

  // ---------- the invariant ----------

  predicate ThreadOk(s: State, t: Tid)
    requires t in s.threads
  {
    match s.threads[t]
    case InitLock => s.runner == t && s.status == 1 && s.begun == 0 && s.ended == 0 && !s.ready
    case EnterFirst => s.runner == t && s.status == 1 && s.begun == 0 && s.ended == 0 && s.ready
    case StoreTwo => s.runner == t && s.status == 1 && s.begun == 0 && s.ended == 0 && s.ready && s.inside == t
    case Begin => s.runner == t && s.status == 2 && s.begun == 0 && s.ended == 0 && s.inside == t
    case End => s.runner == t && s.status == 2 && s.begun == 1 && s.ended == 0 && s.inside == t
    case StoreThree => s.runner == t && s.status == 2 && s.begun == 1 && s.ended == 1 && s.inside == t
    case LeaveLast => s.runner == t && s.status == 3 && s.inside == t
    case EnterWait => s.status >= 2
    case LeaveWait => s.status >= 2 && s.inside == t
    case Returned => s.status == 3
    case _ => true
  }

  predicate Running(pc: Pc) {
    pc.InitLock? || pc.EnterFirst? || pc.StoreTwo? || pc.Begin? || pc.End? || pc.StoreThree?
  }

  ghost predicate Inv(s: State) {
    && 0 !in s.threads && s.status <= 3
    && (s.status == 0 ==> s.runner == 0 && s.begun == 0 && s.ended == 0 && !s.ready)
    && (1 <= s.status <= 2 ==> s.runner in s.threads && Running(s.threads[s.runner]))
    && (s.status >= 2 ==> s.ready)
    && (s.status == 3 ==> s.begun == 1 && s.ended == 1)
    && (s.inside != 0 ==> s.inside in s.threads && Inside(s.threads[s.inside]))
    && (forall t :: t in s.threads ==> ThreadOk(s, t))
  }

  /** Places in the lock. */
  predicate Inside(pc: Pc) {
    pc.StoreTwo? || pc.Begin? || pc.End? || pc.StoreThree? || pc.LeaveLast? || pc.LeaveWait?
  }

  lemma OthersKept(s: State, s': State, t: Tid, u: Tid)
    requires Inv(s) && Step(s, s', t) && u in s.threads && u != t
    ensures u in s'.threads && ThreadOk(s', u)
  {
    assert s'.threads[u] == s.threads[u];
    assert ThreadOk(s, u) && ThreadOk(s, t);
    if s.runner in s.threads { assert ThreadOk(s, s.runner); }
  }

  /** The thread that moves keeps its own part. */
  lemma MoverKept(s: State, s': State, t: Tid)
    requires Inv(s) && Step(s, s', t)
    ensures ThreadOk(s', t) && s'.threads.Keys == s.threads.Keys
  {
    assert ThreadOk(s, t);
    if s.runner in s.threads { assert ThreadOk(s, s.runner); }
  }

  lemma StepKeepsInv(s: State, s': State, t: Tid)
    requires Inv(s) && Step(s, s', t)
    ensures Inv(s') && s.status <= s'.status <= s.status + 1
  {
    assert ThreadOk(s, t);
    if s.runner in s.threads { assert ThreadOk(s, s.runner); }
    if s.inside in s.threads { assert ThreadOk(s, s.inside); }
    assert forall u :: u in s'.threads ==> ThreadOk(s', u) by {
      hide Step, ThreadOk;
      MoverKept(s, s', t);
      forall u | u in s'.threads ensures ThreadOk(s', u) {
        if u != t { OthersKept(s, s', t, u); }
      }
    }
  }

  // ---------- runs ----------

  ghost predicate IsRun(run: seq<State>) {
    && |run| > 0 && Init(run[0])
    && forall i :: 0 <= i < |run| - 1 ==> Next(run[i], run[i + 1])
  }

  lemma {:induction false} RunInv(run: seq<State>, i: nat)
    requires IsRun(run) && i < |run|
    ensures Inv(run[i])
  {
    if i > 0 {
      RunInv(run, i - 1);
      assert Next(run[i - 1], run[i]);
      var t :| Step(run[i - 1], run[i], t);
      StepKeepsInv(run[i - 1], run[i], t);
    }
  }

  /** Section 7.26.2.1 of C11: the function runs at most once, and no caller has returned before it has ended. */
  lemma RunsOnceBeforeReturn(run: seq<State>, i: nat)
    requires IsRun(run) && i < |run|
    ensures run[i].ended <= run[i].begun <= 1
    ensures (exists t :: t in run[i].threads && run[i].threads[t].Returned?) ==> run[i].begun == 1 && run[i].ended == 1
  {
    var s := run[i];
    RunInv(run, i);
    if s.runner in s.threads { assert ThreadOk(s, s.runner); }
    if t :| t in s.threads && s.threads[t].Returned? {
      assert ThreadOk(s, t);
    }
  }

  /** The lock is entered only after it is initialised, and by one thread at a time. */
  lemma LockIsReady(run: seq<State>, i: nat, t: Tid, u: Tid)
    requires IsRun(run) && i < |run| && t in run[i].threads && u in run[i].threads
    requires Inside(run[i].threads[t])
    ensures run[i].ready
    ensures Inside(run[i].threads[u]) ==> t == u
  {
    RunInv(run, i);
    assert ThreadOk(run[i], t) && ThreadOk(run[i], u);
  }

  /** A thread about to enter the lock finds it initialised. */
  lemma EntersReadyLock(run: seq<State>, i: nat, t: Tid)
    requires IsRun(run) && i < |run| && t in run[i].threads
    requires run[i].threads[t].EnterFirst? || run[i].threads[t].EnterWait?
    ensures run[i].ready
  {
    RunInv(run, i);
    assert ThreadOk(run[i], t);
  }

  /** The status only rises, one at a time. */
  lemma {:induction false} StatusRises(run: seq<State>, i: nat, j: nat)
    requires IsRun(run) && i <= j < |run|
    ensures run[i].status <= run[j].status <= 3
    ensures j == i + 1 ==> run[j].status <= run[i].status + 1
    decreases j - i
  {
    hide Step, Init, ThreadOk;
    RunInv(run, j);
    if i < j {
      StatusRises(run, i, j - 1);
      RunInv(run, j - 1);
      assert Next(run[j - 1], run[j]);
      var t :| Step(run[j - 1], run[j], t);
      StepKeepsInv(run[j - 1], run[j], t);
    }
  }

  ghost predicate Enabled(s: State, t: Tid) {
    exists s' :: Step(s, s', t)
  }

  /** Nobody is stuck for good: a thread that cannot move waits for one in the lock that can. */
  lemma NoDeadlock(run: seq<State>, i: nat, t: Tid)
    requires IsRun(run) && i < |run| && t in run[i].threads
    ensures Enabled(run[i], t) || (run[i].inside in run[i].threads && Enabled(run[i], run[i].inside))
  {
    var s := run[i];
    RunInv(run, i);
    var u := if (s.threads[t].EnterFirst? || s.threads[t].EnterWait?) && s.inside != 0 then s.inside else t;
    var s' := Taken(s, u);
    assert Step(s, s', u);
  }
}
