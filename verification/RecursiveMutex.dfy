/** The recursive timed mutex, one atomic access to a step. */
module RecursiveMutex {

  /** Thread ids; the system never uses 0, which `owner` holds while nobody owns the mutex. */
  type Tid = nat

  datatype Call = Lock | TryLock | TimedLock

  /** Where a thread is: about to make the named access. */
  datatype Pc =
    | Idle
    | LoadOwner(call: Call)
    | Increment
    | Wait(call: Call)
    | StoreOwner
    | StoreCount
    | Subtract
    | ClearOwner
    | Release

  /** `depth` counts a thread's lock calls that returned success less the unlock calls it has begun. */
  datatype Thread = Thread(pc: Pc, depth: nat)

  /** The kernel mutex, which its holder may take again. */
  datatype Kernel = Free | Held(holder: Tid, times: nat)

  datatype State = State(threads: map<Tid, Thread>, owner: Tid, count: int, kernel: Kernel)

  ghost predicate Init(s: State) {
    && 0 !in s.threads
    && (forall t :: t in s.threads ==> s.threads[t] == Thread(Idle, 0))
    && s.owner == 0 && s.count == 0 && s.kernel == Free
  }

  function Moved(s: State, t: Tid, pc: Pc): State
    requires t in s.threads
  {
    s.(threads := s.threads[t := s.threads[t].(pc := pc)])
  }

  function Settled(s: State, t: Tid, depth: nat): State {
    s.(threads := s.threads[t := Thread(Idle, depth)])
  }

  /** One step of a thread. A thread unlocks only a mutex it holds, as section 7.26.4.6 of C11 demands. Waiting with
      no timeout ends only with the mutex, `mtx_trylock` gives up only while another thread has it, and
      `mtx_timedlock` may give up at any time. */
  ghost predicate Step(s: State, s': State, t: Tid) {
    t in s.threads &&
    var me := s.threads[t];
    match me.pc
    case Idle =>
      || (exists c :: s' == Moved(s, t, LoadOwner(c)))
      || (me.depth > 0 && s' == s.(threads := s.threads[t := Thread(Subtract, me.depth - 1)]))
    case LoadOwner(c) => s' == Moved(s, t, if s.owner == t then Increment else Wait(c))
    case Increment => s' == Settled(s.(count := s.count + 1), t, me.depth + 1)
    case Wait(c) =>
      || (s.kernel.Free? && s' == Moved(s.(kernel := Held(t, 1)), t, StoreOwner))
      || (s.kernel.Held? && s.kernel.holder == t && s' == Moved(s.(kernel := Held(t, s.kernel.times + 1)), t, StoreOwner))
      || (c.TryLock? && s.kernel.Held? && s.kernel.holder != t && s' == Settled(s, t, me.depth))
      || (c.TimedLock? && s' == Settled(s, t, me.depth))
    case StoreOwner => s' == Moved(s.(owner := t), t, StoreCount)
    case StoreCount => s' == Settled(s.(count := 1), t, me.depth + 1)
    case Subtract =>
      var left := s.count - 1;
      if left > 0 then s' == Settled(s.(count := left), t, me.depth)
      else s' == Moved(s.(count := left), t, ClearOwner)
    case ClearOwner => s' == Moved(s.(owner := 0), t, Release)
    case Release =>
      if s.kernel.Held? && s.kernel.holder == t then
        s' == Settled(s.(kernel := if s.kernel.times <= 1 then Free else Held(t, s.kernel.times - 1)), t, me.depth)
      else s' == Settled(s, t, me.depth)
  }

  ghost predicate Next(s: State, s': State) {
    exists t :: Step(s, s', t)
  }

  // ---------- the invariant ----------

  predicate Holds(s: State, t: Tid) {
    s.kernel.Held? && s.kernel.holder == t
  }

  /** What a thread's place says about the shared words. */
  predicate ThreadOk(s: State, t: Tid)
    requires t in s.threads
  {
    var me := s.threads[t];
    match me.pc
    case Idle => (me.depth > 0 <==> Holds(s, t)) && (Holds(s, t) ==> s.owner == t && s.count == me.depth)
    case LoadOwner(_) => (me.depth > 0 <==> Holds(s, t)) && (Holds(s, t) ==> s.owner == t && s.count == me.depth)
    case Increment => Holds(s, t) && s.owner == t && s.count == me.depth
    case Wait(_) => !Holds(s, t) && me.depth == 0
    case StoreOwner => Holds(s, t) && me.depth == 0 && s.owner == 0
    case StoreCount => Holds(s, t) && me.depth == 0 && s.owner == t
    case Subtract => Holds(s, t) && s.owner == t && s.count == me.depth + 1
    case ClearOwner => Holds(s, t) && me.depth == 0 && s.owner == t && s.count == 0
    case Release => Holds(s, t) && me.depth == 0 && s.owner == 0
  }

  ghost predicate Inv(s: State) {
    && 0 !in s.threads
    && (s.kernel.Held? ==> s.kernel.holder in s.threads && s.kernel.times == 1)
    && (s.owner != 0 ==> Holds(s, s.owner))
    && (forall t :: t in s.threads ==> ThreadOk(s, t))
  }

  /** A thread that does not hold the mutex is untouched by what the others store. */
  lemma OthersKept(s: State, s': State, t: Tid, u: Tid)
    requires Inv(s) && Step(s, s', t) && u in s.threads && u != t
    ensures u in s'.threads && ThreadOk(s', u)
  {
    assert s'.threads[u] == s.threads[u];
    assert ThreadOk(s, u) && ThreadOk(s, t);
  }

  lemma StepKeepsInv(s: State, s': State, t: Tid)
    requires Inv(s) && Step(s, s', t)
    ensures Inv(s')
  {
    assert ThreadOk(s, t);
    assert s'.threads.Keys == s.threads.Keys;
    forall u | u in s'.threads ensures ThreadOk(s', u) {
      if u != t { OthersKept(s, s', t, u); }
    }
  }

  // ---------- runs ----------

  ghost predicate IsRun(run: seq<State>) {
    && |run| > 0 && Init(run[0])
    && forall i :: 0 <= i < |run| - 1 ==> Next(run[i], run[i + 1])
  }

  /** The invariant holds in every state of every run. */
  lemma {:induction false} RunInv(run: seq<State>, i: nat)
    requires IsRun(run) && i < |run|
    ensures Inv(run[i])
  {
    if i > 0 {
      RunInv(run, i - 1);
      assert Next(run[i - 1], run[i]);
      var t :| Step(run[i - 1], run[i], t);
      StepKeepsInv(run[i - 1], run[i], t);
    }
  }

  /** Section 7.26.4.3 of C11: the mutex has one owner at a time. */
  lemma OneOwner(run: seq<State>, i: nat, t: Tid, u: Tid)
    requires IsRun(run) && i < |run|
    requires t in run[i].threads && u in run[i].threads
    requires run[i].threads[t].depth > 0 && run[i].threads[u].depth > 0
    ensures t == u
  {
    RunInv(run, i);
    assert ThreadOk(run[i], t) && ThreadOk(run[i], u);
  }

  /** The unguarded read of `owner` at the start of a lock call is true exactly for the thread that has the kernel
      mutex, and that thread never waits for it. */
  lemma OwnerReadIsTrue(run: seq<State>, i: nat, t: Tid)
    requires IsRun(run) && i < |run| && t in run[i].threads
    ensures run[i].owner == t ==> Holds(run[i], t)
    ensures run[i].threads[t].pc.LoadOwner? ==>
              (run[i].owner == t <==> Holds(run[i], t)) && (run[i].owner == t <==> run[i].threads[t].depth > 0)
    ensures run[i].threads[t].pc.Wait? ==> !Holds(run[i], t)
  {
    RunInv(run, i);
    assert ThreadOk(run[i], t);
  }

  /** Between calls, a thread holds the kernel mutex exactly when its depth is positive, and `count` is that depth. */
  lemma CountIsDepth(run: seq<State>, i: nat, t: Tid)
    requires IsRun(run) && i < |run| && t in run[i].threads && run[i].threads[t].pc.Idle?
    ensures Holds(run[i], t) <==> run[i].threads[t].depth > 0
    ensures run[i].threads[t].depth > 0 ==> run[i].count == run[i].threads[t].depth && run[i].owner == t
  {
    RunInv(run, i);
    assert ThreadOk(run[i], t);
  }

  /** The kernel mutex becomes free exactly when its holder's unlock has taken the depth to zero, and every unlock that
      does so frees it before it returns. */
  lemma ReleasedAtZero(run: seq<State>, i: nat, t: Tid)
    requires IsRun(run) && i < |run| - 1 && Step(run[i], run[i + 1], t)
    ensures run[i].kernel.Held? && run[i + 1].kernel.Free? <==> run[i].threads[t].pc.Release?
    ensures run[i].threads[t].pc.Release? ==> Holds(run[i], t) && run[i].threads[t].depth == 0
    ensures run[i].threads[t].pc.Subtract? ==> (run[i + 1].threads[t].pc.ClearOwner? <==> run[i].threads[t].depth == 0)
  {
    RunInv(run, i);
    assert ThreadOk(run[i], t);
  }

  // ---------- refinement ----------

  /** The mutex a caller sees: nobody's, or some thread's with a positive depth. */
  datatype Spec = Unowned | Owned(who: Tid, depth: nat)

  function SpecDepth(me: Thread): nat {
    match me.pc
    case StoreOwner => 1
    case StoreCount => 1
    case ClearOwner => 1
    case Release => 1
    case Subtract => me.depth + 1
    case _ => me.depth
  }

  function SpecOf(s: State): Spec
    requires s.kernel.Held? ==> s.kernel.holder in s.threads
  {
    if s.kernel.Free? then Unowned else Owned(s.kernel.holder, SpecDepth(s.threads[s.kernel.holder]))
  }

  predicate SpecLock(a: Spec, b: Spec, t: Tid) {
    (a.Unowned? && b == Owned(t, 1)) || (a.Owned? && a.who == t && b == Owned(t, a.depth + 1))
  }

  predicate SpecUnlock(a: Spec, b: Spec, t: Tid) {
    a.Owned? && a.who == t && a.depth > 0 && b == if a.depth == 1 then Unowned else Owned(t, a.depth - 1)
  }

  /** What a caller sees of a step. */
  predicate SpecStep(s: State, s': State, t: Tid)
    requires t in s.threads && t in s'.threads
    requires s.kernel.Held? ==> s.kernel.holder in s.threads
    requires s'.kernel.Held? ==> s'.kernel.holder in s'.threads
  {
    var a, b := SpecOf(s), SpecOf(s');
    var pc, pc' := s.threads[t].pc, s'.threads[t].pc;
    if pc.Increment? || (pc.Wait? && pc'.StoreOwner?) then SpecLock(a, b, t)
    else if pc.Release? || (pc.Subtract? && pc'.Idle?) then SpecUnlock(a, b, t)
    else a == b
  }

  /** The holder's steps, and the steps of a thread that takes a free mutex. */
  lemma HolderRefines(s: State, s': State, t: Tid)
    requires Step(s, s', t) && ThreadOk(s, t) && (Holds(s, t) || s.kernel.Free?)
    requires s.kernel.Held? ==> s.kernel.times == 1
    requires s'.kernel.Held? ==> s'.kernel.holder in s'.threads
    ensures SpecStep(s, s', t)
  {
  }

  /** A step of another thread is none to callers. */
  lemma OtherRefines(s: State, s': State, t: Tid)
    requires Step(s, s', t) && ThreadOk(s, t) && s.kernel.Held? && !Holds(s, t) && s.kernel.holder in s.threads
    ensures s'.kernel == s.kernel && s'.threads[s.kernel.holder] == s.threads[s.kernel.holder]
    ensures SpecStep(s, s', t)
  {
  }

  /** Every step is, to callers, one lock, one unlock, or nothing: the accesses together are a recursive mutex. */
  lemma Refines(run: seq<State>, i: nat, t: Tid)
    requires IsRun(run) && i < |run| - 1 && Step(run[i], run[i + 1], t)
    ensures Inv(run[i]) && Inv(run[i + 1]) && t in run[i + 1].threads && SpecStep(run[i], run[i + 1], t)
  {
    RunInv(run, i);
    RunInv(run, i + 1);
    var s, s' := run[i], run[i + 1];
    assert ThreadOk(s, t);
    hide Step, ThreadOk, SpecStep, IsRun;
    if Holds(s, t) || s.kernel.Free? {
      HolderRefines(s, s', t);
    } else {
      OtherRefines(s, s', t);
    }
  }
}
