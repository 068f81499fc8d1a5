/** That call_once comes to an end, with the function run. */
module OnceProgress {
  import opened CallOnce

  /** How many accesses a thread is away from reporting the end of the function. */
  function ToEnd(s: State, t: Tid): nat
    requires t in s.threads
  {
    match s.threads[t]
    case Outside => 10
    case TestLoop => 9
    case TestSwitch => 8
    case Exchange => 7
    case InitLock => 6
    case EnterFirst => 5
    case StoreTwo => 4
    case Begin => 3
    case End => 2
    case StoreThree => 1
    case _ => 0
  }

  /** The thread that gets on with it: the one whose exchange succeeded, any other before that. */
  function Driver(s: State, t: Tid): Tid {
    if s.status == 0 then t else s.runner
  }

  /** How far the end is. */
  function Left(s: State, t: Tid): nat {
    if s.status < 3 && Driver(s, t) in s.threads then ToEnd(s, Driver(s, t)) else 0
  }

  /** Until the status is 3 that thread is never stopped, and each of its accesses brings the end one nearer. */
  lemma DriverAdvances(s: State, t: Tid)
    requires Inv(s) && t in s.threads && s.status < 3
    ensures var u := Driver(s, t);
            && u in s.threads && Step(s, Taken(s, u), u) && ToEnd(s, u) > 0
            && (Taken(s, u).status < 3 ==> Driver(Taken(s, u), t) == u && ToEnd(Taken(s, u), u) == ToEnd(s, u) - 1)
            && (Taken(s, u).status == 3 ==> s.threads[u].StoreThree? && Taken(s, u).begun == 1 && Taken(s, u).ended == 1)
  {
    var u := Driver(s, t);
    assert ThreadOk(s, u);
    if s.inside in s.threads { assert ThreadOk(s, s.inside); }
  }

  /** From any reachable state, with any thread that calls, the accesses of the driver lead to status 3, the function having
      run once. */
  lemma {:induction false} Completes(run: seq<State>, t: Tid) returns (longer: seq<State>)
    requires IsRun(run) && t in run[|run| - 1].threads
    ensures IsRun(longer) && |longer| >= |run| && longer[..|run|] == run
    ensures var last := longer[|longer| - 1]; last.status == 3 && last.begun == 1 && last.ended == 1
    ensures |longer| == |run| + Left(run[|run| - 1], t) && Left(run[|run| - 1], t) <= 10
    decreases Left(run[|run| - 1], t)
  {
    var s := run[|run| - 1];
    RunInv(run, |run| - 1);
    longer := run;
    if s.status < 3 {
      var u := Driver(s, t);
      DriverAdvances(s, t);
      var more := run + [Taken(s, u)];
      Extended(run, Taken(s, u), u);
      RunInv(more, |more| - 1);
      longer := Completes(more, t);
      assert longer[..|run|] == longer[..|more|][..|run|] == run;
    }
  }

  lemma Extended(run: seq<State>, s': State, t: Tid)
    requires IsRun(run) && Step(run[|run| - 1], s', t)
    ensures IsRun(run + [s'])
  {
    hide Step, Init;
    var more := run + [s'];
    forall i | 0 <= i < |more| - 1 ensures Next(more[i], more[i + 1]) {
      if i < |run| - 1 { assert more[i] == run[i] && more[i + 1] == run[i + 1]; }
    }
  }

  /** How many accesses a caller is away from its return, once the status is 3. */
  function ToReturn(pc: Pc): nat {
    match pc
    case Returned => 0
    case LeaveLast => 1
    case TestLoop => 1
    case Outside => 2
    case TestSwitch => 2
    case Exchange => 2
    case LeaveWait => 2
    case EnterWait => 3
    case _ => 0
  }

  /** Once the status is 3 it stays, each access of a caller brings its return one nearer, and no other thread takes it
      further away; only one about to enter the lock can be stopped, and only by a thread inside, which leaves with its next
      access. */
  lemma CallerReturns(run: seq<State>, i: nat, t: Tid)
    requires IsRun(run) && i < |run| && t in run[i].threads && run[i].status == 3
    ensures run[i].begun == 1 && run[i].ended == 1
    ensures ToReturn(run[i].threads[t]) == 0 <==> run[i].threads[t].Returned?
    ensures !run[i].threads[t].Returned? ==>
              ToReturn(Taken(run[i], t).threads[t]) == ToReturn(run[i].threads[t]) - 1 && Taken(run[i], t).status == 3
    ensures Step(run[i], Taken(run[i], t), t) <==> !(run[i].threads[t].EnterWait? && run[i].inside != 0)
    ensures run[i].inside != 0 ==>
              var u := run[i].inside;
              u in run[i].threads && Step(run[i], Taken(run[i], u), u) && Taken(run[i], u).inside == 0
  {
    var s := run[i];
    RunInv(run, i);
    assert ThreadOk(s, t);
    if s.inside in s.threads { assert ThreadOk(s, s.inside); }
  }

  /** A run in which, from some state on, one thread moves alone. */
  ghost predicate Alone(run: seq<State>, from: nat, t: Tid) {
    && IsRun(run) && from < |run| && t in run[from].threads
    && forall i :: from <= i < |run| - 1 ==> Step(run[i], run[i + 1], t)
  }

  /** A thread that is alone from the start runs the function and returns with its eleventh access. */
  lemma FirstCall(run: seq<State>, t: Tid)
    requires Alone(run, 0, t) && |run| > 11
    ensures forall i :: 0 <= i < 11 ==> t in run[i].threads && !run[i].threads[t].Returned?
    ensures var last := run[11];
            t in last.threads && last.threads[t].Returned? && last.begun == 1 && last.ended == 1 && last.status == 3
            && last.inside == 0
  {
    assert forall i :: 0 <= i < 11 ==> Step(run[i], run[i + 1], t);
    assert run[1] == Taken(run[0], t) && run[2] == Taken(run[1], t) && run[3] == Taken(run[2], t);
    assert run[4] == Taken(run[3], t) && run[5] == Taken(run[4], t) && run[6] == Taken(run[5], t);
    assert run[7] == Taken(run[6], t) && run[8] == Taken(run[7], t) && run[9] == Taken(run[8], t);
    assert run[10] == Taken(run[9], t) && run[11] == Taken(run[10], t);
  }
}
