/** The counting semaphore made of a mutex and a condition variable (`SC_Semaphore`), as steps of any number of threads.
    Other threads change the count while one of them is inside `pthread_cond_wait`, so the steps of all threads share
    one state. */
module Semaphores {

  /** Where a thread is: outside, or at a place in `Acquire` or `Release`. */
  datatype Thread =
    | Outside
    | WantsAcquire | Testing | Sleeping | Woken | Taking
    | WantsRelease | Counting | Signalling
    | Leaving(acquired: bool)

  /** `acquires` and `releases` count the calls that have returned. */
  datatype System = System(
    count: int, threads: seq<Thread>, initial: int, acquires: nat, releases: nat)

  datatype Step =
    | CallAcquire | CallRelease
    | Lock
    | Test
    | WakeSpuriously
    | Take
    | Increment
    | Signal(sleeper: nat)
    | Unlock

  /** The thread holds the mutex. */
  predicate Inside(t: Thread) {
    t.Testing? || t.Taking? || t.Counting? || t.Signalling? || t.Leaving?
  }

  ghost predicate MutexFree(s: System) {
    forall t :: 0 <= t < |s.threads| ==> !Inside(s.threads[t])
  }

  ghost predicate NoneAsleep(s: System) {
    forall t :: 0 <= t < |s.threads| ==> !s.threads[t].Sleeping?
  }

  /** Thread `t` can take step `e`. `pthread_cond_signal` picks one sleeper if there is one; that it may wake more, and
      that waits may end without a signal, is `WakeSpuriously`. */
  ghost predicate Enabled(s: System, t: nat, e: Step) {
    t < |s.threads| && match e
    case CallAcquire => s.threads[t].Outside?
    case CallRelease => s.threads[t].Outside?
    case Lock => (s.threads[t].WantsAcquire? || s.threads[t].Woken? || s.threads[t].WantsRelease?) && MutexFree(s)
    case Test => s.threads[t].Testing?
    case WakeSpuriously => s.threads[t].Sleeping?
    case Take => s.threads[t].Taking?
    case Increment => s.threads[t].Counting?
    case Signal(u) => s.threads[t].Signalling? && (NoneAsleep(s) || (u < |s.threads| && s.threads[u].Sleeping?))
    case Unlock => s.threads[t].Leaving?
  }

  function Goes(s: System, t: nat, at: Thread): System
    requires t < |s.threads|
  {
    s.(threads := s.threads[t := at])
  }

  function After(s: System, t: nat, e: Step): System
    requires t < |s.threads|
  {
    match e
    case CallAcquire => Goes(s, t, WantsAcquire)
    case CallRelease => Goes(s, t, WantsRelease)
    case Lock => Goes(s, t, if s.threads[t].WantsRelease? then Counting else Testing)
    case Test => Goes(s, t, if s.count < 1 then Sleeping else Taking)
    case WakeSpuriously => Goes(s, t, Woken)
    case Take => Goes(s.(count := s.count - 1), t, Leaving(true))
    case Increment => Goes(s.(count := s.count + 1), t, if s.count + 1 > 0 then Signalling else Leaving(false))
    case Signal(u) =>
      var s1 := if u < |s.threads| && s.threads[u].Sleeping? then Goes(s, u, Woken) else s;
      Goes(s1, t, Leaving(false))
    case Unlock =>
      if s.threads[t] == Leaving(true) then Goes(s.(acquires := s.acquires + 1), t, Outside)
      else Goes(s.(releases := s.releases + 1), t, Outside)
  }

  ghost predicate Init(s: System) {
    s.count == s.initial && s.acquires == 0 && s.releases == 0 && forall t :: 0 <= t < |s.threads| ==>
      s.threads[t].Outside?
  }

  /** How many threads are at a place. */
  function HowMany(threads: seq<Thread>, at: Thread): nat {
    if threads == [] then 0 else HowMany(threads[1..], at) + (if threads[0] == at then 1 else 0)
  }

  lemma {:induction false} HowManyUpdate(threads: seq<Thread>, t: nat, next: Thread, at: Thread)
    requires t < |threads|
    ensures HowMany(threads[t := next], at)
      == HowMany(threads, at) - (if threads[t] == at then 1 else 0) + (if next == at then 1 else 0)
  {
    if t > 0 {
      assert threads[t := next][1..] == threads[1..][t - 1 := next];
      HowManyUpdate(threads[1..], t - 1, next, at);
    } else {
      assert threads[t := next][1..] == threads[1..];
    }
  }

  lemma {:induction false} SomeThread(threads: seq<Thread>, at: Thread)
    ensures HowMany(threads, at) > 0 <==> exists t :: 0 <= t < |threads| && threads[t] == at
  {
    if threads != [] {
      SomeThread(threads[1..], at);
      if t :| 0 <= t < |threads[1..]| && threads[1..][t] == at { assert threads[t + 1] == at; }
      if t :| 0 <= t < |threads| && threads[t] == at {
        if t > 0 { assert threads[1..][t - 1] == at; }
      }
    }
  }

  /** How far the count is ahead of the calls that have returned: a thread on its way out of a call counts already. */
  function UnderWay(t: Thread): int {
    match t
    case Leaving(true) => -1
    case Leaving(false) => 1
    case Signalling => 1
    case _ => 0
  }

  function AllUnderWay(threads: seq<Thread>): int {
    if threads == [] then 0 else UnderWay(threads[0]) + AllUnderWay(threads[1..])
  }

  lemma {:induction false} UnderWayUpdate(threads: seq<Thread>, t: nat, next: Thread)
    requires t < |threads|
    ensures AllUnderWay(threads[t := next]) == AllUnderWay(threads) - UnderWay(threads[t]) + UnderWay(next)
  {
    if t > 0 {
      assert threads[t := next][1..] == threads[1..][t - 1 := next];
      UnderWayUpdate(threads[1..], t - 1, next);
    } else {
      assert threads[t := next][1..] == threads[1..];
    }
  }

  lemma {:induction false} NoneUnderWay(threads: seq<Thread>)
    requires forall t :: 0 <= t < |threads| ==> !Inside(threads[t])
    ensures AllUnderWay(threads) == 0
  {
    if threads != [] { NoneUnderWay(threads[1..]); }
  }

  /** The woken threads that may be missing for each permit: one while a thread tests or takes, or is about to
      signal. */
  function Slack(t: Thread): nat {
    if t.Testing? || t.Taking? || t.Signalling? then 1 else 0
  }

  /** At most one thread is inside, and every permit has a woken thread coming for it while others sleep. */
  ghost predicate Inv(s: System) {
    && (forall t, u :: 0 <= t < u < |s.threads| ==> !(Inside(s.threads[t]) && Inside(s.threads[u])))
    && s.count == s.initial + s.releases - s.acquires + AllUnderWay(s.threads)
    && (s.count >= s.initial || s.count >= 0)
    && (forall t :: 0 <= t < |s.threads| && s.threads[t].Taking? ==> s.count >= 1)
    && (HowMany(s.threads, Sleeping) > 0 ==> Covered(s))
  }

  ghost predicate Covered(s: System) {
    if MutexFree(s) then HowMany(s.threads, Woken) >= s.count
    else forall t :: 0 <= t < |s.threads| && Inside(s.threads[t]) ==>
      HowMany(s.threads, Woken) + Slack(s.threads[t]) >= s.count
  }

  lemma {:induction false} NoneAt(threads: seq<Thread>, at: Thread)
    requires forall t :: 0 <= t < |threads| ==> threads[t] != at
    ensures HowMany(threads, at) == 0
  {
    if threads != [] { NoneAt(threads[1..], at); }
  }

  lemma InitInv(s: System)
    requires Init(s)
    ensures Inv(s)
  {
    NoneAt(s.threads, Sleeping);
    NoneUnderWay(s.threads);
  }

  /** What one thread's move does to the sums over all threads. */
  lemma Moved(s: System, s': System, t: nat)
    requires t < |s.threads| == |s'.threads| && s'.threads == s.threads[t := s'.threads[t]]
    ensures var was, now := s.threads[t], s'.threads[t];
      && HowMany(s'.threads, Sleeping) == HowMany(s.threads,
        Sleeping) - (if was.Sleeping? then 1 else 0) + (if now.Sleeping? then 1 else 0)
      && HowMany(s'.threads, Woken) == HowMany(s.threads,
        Woken) - (if was.Woken? then 1 else 0) + (if now.Woken? then 1 else 0)
      && AllUnderWay(s'.threads) == AllUnderWay(s.threads) - UnderWay(was) + UnderWay(now)
    ensures !Inside(s.threads[t]) && !Inside(s'.threads[t]) ==> (MutexFree(s) <==> MutexFree(s'))
  {
    HowManyUpdate(s.threads, t, s'.threads[t], Sleeping);
    HowManyUpdate(s.threads, t, s'.threads[t], Woken);
    UnderWayUpdate(s.threads, t, s'.threads[t]);
    if !Inside(s.threads[t]) && !Inside(s'.threads[t]) {
      forall u | 0 <= u < |s.threads| ensures Inside(s.threads[u]) <==> Inside(s'.threads[u]) {}
    }
  }

  /** Steps outside the mutex. */
  lemma OutsideStepInv(s: System, t: nat, e: Step)
    requires Inv(s) && Enabled(s, t, e) && (e.CallAcquire? || e.CallRelease? || e.WakeSpuriously?)
    ensures Inv(After(s, t, e))
  {
    var s' := After(s, t, e);
    Moved(s, s', t);
    if !MutexFree(s) {
      forall u | 0 <= u < |s'.threads| && Inside(s'.threads[u])
        ensures HowMany(s.threads, Sleeping) > 0 ==> HowMany(s'.threads, Woken) + Slack(s'.threads[u]) >= s'.count {
        assert Inside(s.threads[u]);
      }
    }
  }

  lemma LockInv(s: System, t: nat)
    requires Inv(s) && Enabled(s, t, Lock)
    ensures Inv(After(s, t, Lock))
  {
    Moved(s, After(s, t, Lock), t);
  }

  /** Steps of the thread that holds the mutex. */
  lemma InsideStepInv(s: System, t: nat, e: Step)
    requires Inv(s) && Enabled(s, t, e) && (e.Test? || e.Take? || e.Increment? || e.Unlock?)
    ensures Inv(After(s, t, e))
  {
    assert Inside(s.threads[t]);
    Moved(s, After(s, t, e), t);
  }

  lemma SignalInv(s: System, t: nat, u: nat)
    requires Inv(s) && Enabled(s, t, Signal(u))
    ensures Inv(After(s, t, Signal(u)))
  {
    var s' := After(s, t, Signal(u));
    assert Inside(s.threads[t]);
    if NoneAsleep(s) {
      SomeThread(s.threads, Sleeping);
      Moved(s, s', t);
    } else {
      var s1 := Goes(s, u, Woken);
      Moved(s, s1, u);
      Moved(s1, s', t);
    }
  }

  lemma StepInv(s: System, t: nat, e: Step)
    requires Inv(s) && Enabled(s, t, e)
    ensures Inv(After(s, t, e))
  {
    match e
    case Lock => LockInv(s, t);
    case Signal(u) => SignalInv(s, t, u);
    case CallAcquire => OutsideStepInv(s, t, e);
    case CallRelease => OutsideStepInv(s, t, e);
    case WakeSpuriously => OutsideStepInv(s, t, e);
    case _ => InsideStepInv(s, t, e);
  }

  /** A run of all threads under any schedule. */
  ghost predicate Run(run: seq<System>, who: seq<nat>, steps: seq<Step>) {
    && |run| == |steps| + 1 && |who| == |steps| && Init(run[0])
    && forall i :: 0 <= i < |steps| ==> Enabled(run[i], who[i], steps[i]) && run[i + 1] == After(run[i], who[i],
      steps[i])
  }

  lemma {:induction false} RunInv(run: seq<System>, who: seq<nat>, steps: seq<Step>, i: nat)
    requires Run(run, who, steps) && i < |run|
    ensures Inv(run[i]) && run[i].initial == run[0].initial
  {
    if i == 0 {
      InitInv(run[0]);
    } else {
      RunInv(run, who, steps, i - 1);
      StepInv(run[i - 1], who[i - 1], steps[i - 1]);
    }
  }

  /** Whenever the mutex is free the count is the initial count plus the releases less the acquires that returned. */
  lemma CountConserved(run: seq<System>, who: seq<nat>, steps: seq<Step>, i: nat)
    requires Run(run, who, steps) && i < |run| && MutexFree(run[i])
    ensures run[i].count == run[0].initial + run[i].releases - run[i].acquires
  {
    RunInv(run, who, steps, i);
    NoneUnderWay(run[i].threads);
  }

  /** The count never falls below zero, or below where it started from if that was less. */
  lemma CountBounded(run: seq<System>, who: seq<nat>, steps: seq<Step>, i: nat)
    requires Run(run, who, steps) && i < |run|
    ensures run[i].count >= if run[0].initial < 0 then run[0].initial else 0
  {
    RunInv(run, who, steps, i);
  }

  /** No wakeup is lost: whenever threads still sleep and the mutex is free, as many woken threads as there are permits
      are on their way to the mutex. */
  lemma NoLostWakeup(run: seq<System>, who: seq<nat>, steps: seq<Step>, i: nat)
    requires Run(run, who, steps) && i < |run| && MutexFree(run[i]) && !NoneAsleep(run[i])
    ensures HowMany(run[i].threads, Woken) >= run[i].count
  {
    RunInv(run, who, steps, i);
    SomeThread(run[i].threads, Sleeping);
  }

  /** Threads that sleep while no other thread is about to run sleep for want of a permit. */
  lemma SleepersHaveNoPermit(run: seq<System>, who: seq<nat>, steps: seq<Step>, i: nat)
    requires Run(run, who, steps) && i < |run| && !NoneAsleep(run[i])
    requires forall t :: 0 <= t < |run[i].threads| ==> run[i].threads[t].Sleeping? || run[i].threads[t].Outside?
    ensures run[i].count <= 0 && run[i].acquires >= run[0].initial + run[i].releases
  {
    NoLostWakeup(run, who, steps, i);
    NoneAt(run[i].threads, Woken);
    CountConserved(run, who, steps, i);
  }

  // ----- what a call of Acquire or Release does

  /** On the way to a permit. */
  predicate Waits(t: Thread) { t.WantsAcquire? || t.Testing? || t.Sleeping? || t.Woken? || t.Taking? }

  /** Thread `t` is inside one call, begun at step `i`, in all states up to `j`. */
  ghost predicate InCall(run: seq<System>, who: seq<nat>, steps: seq<Step>, i: nat, j: nat, t: nat) {
    && Run(run, who, steps) && i < j < |run| && who[i] == t
    && forall m :: i < m <= j ==> t < |run[m].threads| && !run[m].threads[t].Outside?
  }

  lemma StepIs(run: seq<System>, who: seq<nat>, steps: seq<Step>, i: nat)
    requires Run(run, who, steps) && i < |steps|
    ensures Enabled(run[i], who[i], steps[i]) && run[i + 1] == After(run[i], who[i], steps[i])
    ensures |run[i + 1].threads| == |run[i].threads|
  {}

  /** One move of the thread that is on its way to a permit, or of another. */
  lemma WaitsOrTakes(s: System, u: nat, e: Step, t: nat)
    requires Enabled(s, u, e) && t < |s.threads| && Waits(s.threads[t])
    ensures var s' := After(s, u, e);
      t < |s'.threads| && if u == t && e.Take? then s'.threads[t] == Leaving(true) && s'.count == s.count - 1
                          else Waits(s'.threads[t])
  {}

  lemma LeavesOnce(s: System, u: nat, e: Step, t: nat)
    requires Enabled(s, u, e) && t < |s.threads| && s.threads[t] == Leaving(true)
    ensures var s' := After(s, u, e);
      t < |s'.threads| && if u == t then e == Unlock && s'.threads[t].Outside? && s'.acquires == s.acquires + 1
                          else s'.threads[t] == Leaving(true)
  {}

  /** Thread `t` waits in state `j`, or leaves after it took a permit at step `k`. */
  ghost predicate WaitsOrTook(run: seq<System>, who: seq<nat>, steps: seq<Step>, i: nat, j: nat, t: nat, k: nat)
    requires j < |run| == |steps| + 1 && |who| == |steps| && t < |run[j].threads|
  {
    Waits(run[j].threads[t])
    || (run[j].threads[t] == Leaving(true) && i < k < j && who[k] == t && steps[k] == Take
        && run[k + 1].count == run[k].count - 1)
  }

  /** Inside `Acquire` a thread waits until it takes a permit, and then leaves. */
  lemma {:induction false} InAcquire(run: seq<System>, who: seq<nat>, steps: seq<Step>, i: nat, j: nat, t: nat)
      returns (k: nat)
    requires InCall(run, who, steps, i, j, t) && steps[i] == CallAcquire
    ensures WaitsOrTook(run, who, steps, i, j, t, k)
    decreases j
  {
    k := 0;
    if i + 1 < j {
      k := InAcquire(run, who, steps, i, j - 1, t);
      k := NextInAcquire(run, who, steps, i, j - 1, t, k);
    } else {
      CallBegins(run, who, steps, i, t);
    }
  }

  lemma CallBegins(run: seq<System>, who: seq<nat>, steps: seq<Step>, i: nat, t: nat)
    requires Run(run, who, steps) && i < |steps| && who[i] == t && steps[i] == CallAcquire
    ensures t < |run[i + 1].threads| && run[i + 1].threads[t] == WantsAcquire
  {
    StepIs(run, who, steps, i);
  }

  lemma NextInAcquire(run: seq<System>, who: seq<nat>, steps: seq<Step>, i: nat, j: nat, t: nat, k: nat)
      returns (k': nat)
    requires Run(run, who, steps) && i < j < |steps| && t < |run[j].threads|
    requires WaitsOrTook(run, who, steps, i, j, t, k)
    requires t < |run[j + 1].threads| && !run[j + 1].threads[t].Outside?
    ensures WaitsOrTook(run, who, steps, i, j + 1, t, k')
  {
    k' := k;
    StepIs(run, who, steps, j);
    if Waits(run[j].threads[t]) {
      WaitsOrTakes(run[j], who[j], steps[j], t);
      if who[j] == t && steps[j].Take? { k' := j; }
    } else {
      LeavesOnce(run[j], who[j], steps[j], t);
    }
  }

  /** A call of `Acquire` that returns has taken a permit on its way: the count was at least one, and is one less
      afterwards. Its return is counted. */
  lemma AcquireTakes(run: seq<System>, who: seq<nat>, steps: seq<Step>, i: nat, j: nat, t: nat) returns (k: nat)
    requires InCall(run, who, steps, i, j, t) && steps[i] == CallAcquire && j < |steps|
    requires t < |run[j + 1].threads| && run[j + 1].threads[t].Outside?
    ensures i < k < j && who[k] == t && steps[k] == Take && 1 <= run[k].count && run[k + 1].count == run[k].count - 1
    ensures who[j] == t && steps[j] == Unlock && run[j + 1].acquires == run[j].acquires + 1
  {
    k := InAcquire(run, who, steps, i, j, t);
    StepIs(run, who, steps, j);
    if Waits(run[j].threads[t]) {
      WaitsOrTakes(run[j], who[j], steps[j], t);
      assert false;
    }
    LeavesOnce(run[j], who[j], steps[j], t);
    RunInv(run, who, steps, k);
  }

  /** A thread that waits for the mutex gets a permit, if there is one and nobody comes between: it locks, finds the
      count positive, takes one off, and leaves. */
  lemma PermitReached(s: System, t: nat)
    requires t < |s.threads| && (s.threads[t].Woken? || s.threads[t].WantsAcquire?) && MutexFree(s) && 1 <= s.count
    ensures Enabled(s, t, Lock)
    ensures var s1 := After(s, t, Lock);
      Enabled(s1, t, Test)
      && (var s2 := After(s1, t, Test);
          Enabled(s2, t, Take)
          && (var s3 := After(s2, t, Take);
              Enabled(s3, t, Unlock) && After(s3, t, Unlock)
                == s.(count := s.count - 1, acquires := s.acquires + 1, threads := s.threads[t := Outside])))
  {
    var s3 := After(After(After(s, t, Lock), t, Test), t, Take);
    assert After(s3, t, Unlock).threads == s.threads[t := Outside];
  }

  /** Whoever holds the mutex can go on. */
  lemma HolderGoesOn(s: System, t: nat) returns (e: Step)
    requires t < |s.threads| && Inside(s.threads[t])
    ensures Enabled(s, t, e)
  {
    match s.threads[t]
    case Testing => e := Test;
    case Taking => e := Take;
    case Counting => e := Increment;
    case Leaving(_) => e := Unlock;
    case Signalling =>
      e := Signal(0);
      if !NoneAsleep(s) {
        var u :| 0 <= u < |s.threads| && s.threads[u].Sleeping?;
        e := Signal(u);
      }
  }
}
