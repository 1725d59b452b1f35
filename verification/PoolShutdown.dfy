/**
 When stop() returns, and when it hangs.

 wakeup() clears _flag and broadcasts without taking the mutex.  A worker that has evaluated the loop condition of
 pop() before, and sleeps after, is not woken by the broadcast.  This module shows exactly when stop() hangs: if there
 is such a worker, and no producer is on its way to push a task and signal.
 */
module PoolShutdown {
  import opened Options
  import opened PoolModel
  import opened PoolInvariant
  import opened PoolSafety
  import opened PoolLiveness

  /** wakeup() has returned. */
  predicate WokenUp(s: State) { s.control.CJoin? || s.control.CStopped? }

  /** No worker is blocked on _notEmpty or committed to block on it. */
  ghost predicate Awake(s: State) {
    forall w: nat | w < |s.workers| :: !s.workers[w].WWaiting? && !s.workers[w].WSleep?
  }

  lemma AwakeMeansNobodyBlocked(s: State)
    requires Inv(s) && Awake(s)
    ensures s.notEmpty == {}
  {
    forall w: nat ensures w !in s.notEmpty {
      if w < |s.workers| { assert WorkerOk(s, w); }
    }
  }

  predicate Sleepy(pc: WorkerPc) { pc.WWaiting? || pc.WSleep? }

  lemma WorkerStaysAwake(s: State, w: nat, chosen: nat, v: nat)
    requires WorkerEnabled(s, w, chosen) && !s.flag && v < |s.workers| && !Sleepy(s.workers[v])
    ensures v < |WorkerDo(s, w, chosen).workers| && !Sleepy(WorkerDo(s, w, chosen).workers[v])
  {
    if InPopWait(s.workers[w]) {
      assert PopWait(s, w).workers == s.workers[w := PopWait(s, w).workers[w]];
    }
  }

  lemma ProducerKeepsAwake(s: State, p: nat, chosen: nat, v: nat)
    requires ProducerEnabled(s, p, chosen) && v < |s.workers| && !Sleepy(s.workers[v])
    ensures v < |ProducerDo(s, p, chosen).workers| && !Sleepy(ProducerDo(s, p, chosen).workers[v])
  {}

  /** With _flag cleared nobody commits to sleep. */
  lemma AwakeStays(s: State, a: Action, v: nat)
    requires Enabled(s, a) && !s.flag && WokenUp(s)
    requires v < |s.workers| == |Do(s, a).workers| && !Sleepy(s.workers[v])
    ensures !Sleepy(Do(s, a).workers[v])
  {
    match a
    case ProducerStep(p, chosen) => ProducerKeepsAwake(s, p, chosen, v);
    case WorkerStep(w, chosen) => WorkerStaysAwake(s, w, chosen, v);
    case _ =>
  }

  lemma StaysWokenUp(s: State, a: Action)
    requires Enabled(s, a) && WokenUp(s)
    ensures WokenUp(Do(s, a)) && |Do(s, a).workers| == |s.workers|
  {
    if !a.ControlStep? {
      OthersKeepControl(s, a);
    }
  }

  lemma AwakeStep(s: State, a: Action)
    requires Inv(s) && Awake(s) && WokenUp(s) && Enabled(s, a)
    ensures Inv(Do(s, a)) && Awake(Do(s, a)) && WokenUp(Do(s, a))
  {
    StepInv(s, a);
    AwakeMeansNobodyBlocked(s);
    StaysWokenUp(s, a);
    var s' := Do(s, a);
    forall v: nat | v < |s'.workers| ensures !s'.workers[v].WWaiting? && !s'.workers[v].WSleep? {
      AwakeStays(s, a, v);
    }
  }

  lemma {:induction false} AwakeRun(s: State, run: seq<Action>)
    requires Inv(s) && Awake(s) && WokenUp(s) && Legal(s, run)
    ensures Inv(Exec(s, run)) && Awake(Exec(s, run)) && WokenUp(Exec(s, run))
    decreases |run|
  {
    if run == [] {
    } else {
      AwakeStep(s, run[0]);
      AwakeRun(Do(s, run[0]), run[1..]);
    }
  }

  /** A worker that is committed to sleep when wakeup() broadcasts can block right afterwards. */
  lemma LateSleeper(s: State, w: nat)
    requires s.control.CBroadcast? && w < |s.workers| && s.workers[w].WSleep?
    ensures var run := [WorkerStep(w, 0)];
            Legal(ControlDo(s, true), run) && w in Exec(ControlDo(s, true), run).notEmpty
  {
    var s1 := ControlDo(s, true);
    var a := WorkerStep(w, 0);
    var none: seq<Action> := [];
    assert [a][1..] == none;
    assert s1.workers[w].WSleep? && Enabled(s1, a) && w in Do(s1, a).notEmpty;
    assert Legal(Do(s1, a), none) && Exec(Do(s1, a), none) == Do(s1, a);
  }

  /**
   Exactly when the broadcast does its job: after it no worker ever blocks again, in any continuation, if and only
   if no worker was between the test of the loop condition and the sleep when wakeup() broadcast.
   */
  lemma BroadcastWakesEverybody(s: State)
    requires Reachable(s) && s.control.CBroadcast?
    ensures (forall w: nat | w < |s.workers| :: !s.workers[w].WSleep?)
       <==> (forall run | Legal(ControlDo(s, true), run) :: Exec(ControlDo(s, true), run).notEmpty == {})
  {
    var s1 := ControlDo(s, true);
    ReachableStep(s, ControlStep(true));
    ReachableInv(s1);
    if forall w: nat | w < |s.workers| :: !s.workers[w].WSleep? {
      assert Awake(s1);
      forall run | Legal(s1, run) ensures Exec(s1, run).notEmpty == {} {
        AwakeRun(s1, run);
        AwakeMeansNobodyBlocked(Exec(s1, run));
      }
    } else {
      var w: nat :| w < |s.workers| && s.workers[w].WSleep?;
      LateSleeper(s, w);
    }
  }

  // ---------- A bound on the steps after wakeup() ----------

  /** Steps of all threads, including the control thread. */
  predicate IsStep(a: Action) { IsWork(a) || a.ControlStep? }

  function Steps(run: seq<Action>): nat {
    if run == [] then 0 else (if IsStep(run[0]) then 1 else 0) + Steps(run[1..])
  }

  /** New calls and spurious wakeups. */
  function Disturbances(run: seq<Action>): nat {
    if run == [] then 0 else (if IsStep(run[0]) then 0 else 1) + Disturbances(run[1..])
  }

  function ProducerLeft(pc: ProducerPc): nat {
    match pc
    case PIdle => 0
    case PWaiting(_) => 0
    case PSleep(_) => 1
    case PUnlock => 1
    case PNotify => 2
    case PPush(_) => 3
    case PTest(_) => 4
    case PLock(_) => 5
    case PWoken(_) => 5
  }

  function WorkerLeft(pc: WorkerPc): nat {
    match pc
    case WNotStarted => 0
    case WDone => 0
    case WLoop => 1
    case WRun(_, _) => 2
    case WGot(_) => 3
    case WUnlock(_) => 4
    case WNotify(_, _) => 10
    case WTake => 11
    case WFlag => 12
    case WTest => 13
    case WLock => 14
    case WWoken => 14
    case WWaiting => 15
    case WSleep => 16
  }

  function ControlLeft(s: State): nat {
    match s.control
    case CJoin(k) => if k < |s.workers| then |s.workers| - k + 1 else 1
    case _ => 0
  }

  /** An upper bound on the steps all threads can still make once wakeup() has returned. */
  function Left(s: State): nat {
    Total(s.producers, ProducerLeft) + Total(s.workers, WorkerLeft) + ControlLeft(s)
  }

  lemma SignalNotFullLeft(s: State, chosen: nat)
    requires s.notFull != {} ==> chosen < |s.producers| && s.producers[chosen].PWaiting?
    ensures Left(SignalNotFull(s, chosen)) <= Left(s) + 5
  {
    if s.notFull != {} {
      TotalUpdate(s.producers, ProducerLeft, chosen, Woken(s.producers[chosen]));
    }
  }

  lemma SignalNotEmptyLeft(s: State, chosen: nat)
    requires s.notEmpty != {} ==> chosen < |s.workers| && s.workers[chosen].WWaiting?
    ensures Left(SignalNotEmpty(s, chosen)) <= Left(s)
  {
    if s.notEmpty != {} {
      TotalUpdate(s.workers, WorkerLeft, chosen, WWoken);
    }
  }

  lemma PushWaitLeft(s: State, p: nat)
    requires p < |s.producers| && InPushWait(s.producers[p])
    ensures Left(PushWait(s, p)) < Left(s)
  {
    TotalUpdate(s.producers, ProducerLeft, p, PushWait(s, p).producers[p]);
  }

  lemma PushPutLeft(s: State, p: nat, chosen: nat)
    requires ProducerEnabled(s, p, chosen) && !InPushWait(s.producers[p])
    requires s.notEmpty != {} && s.producers[p].PNotify? ==> s.workers[chosen].WWaiting?
    ensures Left(PushPut(s, p, chosen)) < Left(s)
  {
    TotalUpdate(s.producers, ProducerLeft, p, PushPut(s, p, chosen).producers[p]);
    if s.producers[p].PNotify? {
      SignalNotEmptyLeft(s, chosen);
    }
  }

  lemma PopWaitLeft(s: State, w: nat)
    requires w < |s.workers| && InPopWait(s.workers[w]) && !s.flag
    ensures Left(PopWait(s, w)) < Left(s)
  {
    TotalUpdate(s.workers, WorkerLeft, w, PopWait(s, w).workers[w]);
  }

  lemma PopTakeLeft(s: State, w: nat, chosen: nat)
    requires WorkerEnabled(s, w, chosen) && !InPopWait(s.workers[w]) && !InTaskLoop(s.workers[w])
    requires s.notFull != {} && s.workers[w].WNotify? ==> s.producers[chosen].PWaiting?
    ensures Left(PopTake(s, w, chosen)) < Left(s)
  {
    TotalUpdate(s.workers, WorkerLeft, w, PopTake(s, w, chosen).workers[w]);
    if s.workers[w].WNotify? {
      SignalNotFullLeft(s, chosen);
    }
  }

  lemma TaskLoopLeft(s: State, w: nat)
    requires w < |s.workers| && InTaskLoop(s.workers[w]) && s.isExit
    ensures Left(TaskLoop(s, w)) < Left(s)
  {
    var pc := TaskLoop(s, w).workers[w];
    assert WorkerLeft(pc) < WorkerLeft(s.workers[w]);
    TotalUpdate(s.workers, WorkerLeft, w, pc);
  }

  lemma WorkLeft(s: State, a: Action)
    requires Inv(s) && WokenUp(s) && IsWork(a) && Enabled(s, a)
    ensures Left(Do(s, a)) < Left(s)
  {
    match a
    case ProducerStep(p, chosen) =>
      if InPushWait(s.producers[p]) {
        PushWaitLeft(s, p);
      } else {
        if chosen < |s.workers| { assert WorkerOk(s, chosen); }
        PushPutLeft(s, p, chosen);
      }
    case WorkerStep(w, chosen) =>
      if InPopWait(s.workers[w]) {
        PopWaitLeft(s, w);
      } else if InTaskLoop(s.workers[w]) {
        TaskLoopLeft(s, w);
      } else {
        if chosen < |s.producers| { assert ProducerOk(s, chosen); }
        PopTakeLeft(s, w, chosen);
      }
  }

  lemma OtherLeft(s: State, a: Action)
    requires WokenUp(s) && !IsWork(a) && Enabled(s, a)
    ensures IsStep(a) ==> Left(Do(s, a)) < Left(s)
    ensures Left(Do(s, a)) <= Left(s) + 5
  {
    match a
    case AddTask(p, task) =>
      if task.Some? { TotalUpdate(s.producers, ProducerLeft, p, PLock(task.value)); }
    case SpuriousProducer(p) => TotalUpdate(s.producers, ProducerLeft, p, Woken(s.producers[p]));
    case SpuriousWorker(w) => TotalUpdate(s.workers, WorkerLeft, w, WWoken);
    case _ =>
  }

  /**
   Once wakeup() has returned, all threads together make at most Left(s) steps, plus 5 per disturbance: stop() either
   returns or ends up in a state where nobody can take a step.
   */
  lemma {:induction false} ShutdownIsBounded(s: State, run: seq<Action>)
    requires Inv(s) && WokenUp(s) && Legal(s, run)
    ensures Steps(run) + Left(Exec(s, run)) <= Left(s) + 5 * Disturbances(run)
    decreases |run|
  {
    if run == [] {
    } else {
      StepInv(s, run[0]);
      StaysWokenUp(s, run[0]);
      if IsWork(run[0]) {
        WorkLeft(s, run[0]);
      } else {
        OtherLeft(s, run[0]);
      }
      ShutdownIsBounded(Do(s, run[0]), run[1..]);
    }
  }

  predicate Quiet(run: seq<Action>) {
    forall a | a in run :: IsStep(a)
  }

  /** No thread can take a step. */
  ghost predicate Stuck(s: State) {
    forall a | IsStep(a) :: !Enabled(s, a)
  }

  /** stop() has not returned, and no thread can take a step. */
  ghost predicate Hung(s: State) { s.control.CJoin? && Stuck(s) }

  lemma Prepend(s: State, a: Action, run: seq<Action>)
    requires Enabled(s, a) && Legal(Do(s, a), run)
    ensures Legal(s, [a] + run) && Exec(s, [a] + run) == Exec(Do(s, a), run)
  {
    assert ([a] + run)[1..] == run;
  }

  /** Left to themselves, the threads go on until nobody can take a step. */
  lemma {:induction false} RunOut(s: State) returns (run: seq<Action>)
    requires Inv(s) && WokenUp(s)
    ensures Legal(s, run) && Quiet(run) && Stuck(Exec(s, run))
    decreases Left(s)
  {
    if a :| IsStep(a) && Enabled(s, a) {
      StepInv(s, a);
      StaysWokenUp(s, a);
      if IsWork(a) { WorkLeft(s, a); } else { OtherLeft(s, a); }
      var rest := RunOut(Do(s, a));
      Prepend(s, a, rest);
      run := [a] + rest;
    } else {
      run := [];
    }
  }

  // ---------- stop() returns ----------

  /** Worker w is the only one that sleeps or is committed to. */
  ghost predicate OneSleeper(s: State, w: nat) {
    && w < |s.workers| && Sleepy(s.workers[w])
    && forall v: nat | v < |s.workers| && v != w :: !Sleepy(s.workers[v])
  }

  /** Producer p is on its way to signal _notEmpty, and finds room in the queue. */
  predicate Coming(s: State, p: nat) {
    && p < |s.producers|
    && var pc := s.producers[p];
    && (pc.PLock? || pc.PWoken? || pc.PTest? || pc.PPush? || pc.PNotify?)
    && (s.que == [] || pc.PNotify?)
  }

  /** Nobody sleeps, or there is one sleeper and a producer that will wake it. */
  ghost predicate Rescued(s: State) {
    Awake(s) || (s.queSize >= 1 && exists w: nat, p: nat :: OneSleeper(s, w) && Coming(s, p))
  }

  lemma QueSizeStays(s: State, a: Action)
    requires Enabled(s, a)
    ensures Do(s, a).queSize == s.queSize
  {
    if !a.ControlStep? {
      OthersKeepControl(s, a);
    }
  }

  /** If the sleeper is still asleep after a step of producer p, somebody is still on the way. */
  lemma ProducerComing(s: State, q: nat, chosen: nat, w: nat, p: nat) returns (r: nat)
    requires Inv(s) && s.queSize >= 1 && OneSleeper(s, w) && Coming(s, p) && ProducerEnabled(s, q, chosen)
    requires w < |ProducerDo(s, q, chosen).workers| && Sleepy(ProducerDo(s, q, chosen).workers[w])
    ensures Coming(ProducerDo(s, q, chosen), r)
  {
    assert ProducerOk(s, q) && WorkerOk(s, w);
    if chosen < |s.workers| { assert WorkerOk(s, chosen); }
    r := if s.producers[q].PPush? then q else p;
  }

  lemma WorkerComing(s: State, v: nat, chosen: nat, p: nat)
    requires Coming(s, p) && WorkerEnabled(s, v, chosen)
    ensures Coming(WorkerDo(s, v, chosen), p)
  {}

  lemma OtherComing(s: State, a: Action, p: nat)
    requires Coming(s, p) && Enabled(s, a) && !IsWork(a) && WokenUp(s)
    ensures Coming(Do(s, a), p)
  {}

  lemma SomebodyComing(s: State, a: Action, w: nat, p: nat) returns (r: nat)
    requires Inv(s) && WokenUp(s) && s.queSize >= 1 && OneSleeper(s, w) && Coming(s, p) && Enabled(s, a)
    requires w < |Do(s, a).workers| && Sleepy(Do(s, a).workers[w])
    ensures Coming(Do(s, a), r)
  {
    match a
    case ProducerStep(q, chosen) => r := ProducerComing(s, q, chosen, w, p);
    case WorkerStep(v, chosen) => WorkerComing(s, v, chosen, p); r := p;
    case _ => OtherComing(s, a, p); r := p;
  }

  /** The others stay awake, so after a step the sleeper is the only one, or nobody sleeps. */
  lemma SleeperStep(s: State, a: Action, w: nat)
    requires Inv(s) && WokenUp(s) && OneSleeper(s, w) && Enabled(s, a)
    ensures Awake(Do(s, a)) || OneSleeper(Do(s, a), w)
  {
    var s' := Do(s, a);
    StaysWokenUp(s, a);
    forall v: nat | v < |s'.workers| && v != w ensures !Sleepy(s'.workers[v]) {
      AwakeStays(s, a, v);
    }
  }

  lemma RescuedStep(s: State, a: Action)
    requires Inv(s) && WokenUp(s) && Rescued(s) && Enabled(s, a)
    ensures Rescued(Do(s, a))
  {
    if Awake(s) {
      AwakeStep(s, a);
    } else {
      var w: nat, p: nat :| OneSleeper(s, w) && Coming(s, p);
      QueSizeStays(s, a);
      SleeperStep(s, a, w);
      if OneSleeper(Do(s, a), w) {
        var r := SomebodyComing(s, a, w, p);
      }
    }
  }

  lemma {:induction false} RescuedRun(s: State, run: seq<Action>)
    requires Inv(s) && WokenUp(s) && Rescued(s) && Legal(s, run)
    ensures var e := Exec(s, run); Inv(e) && WokenUp(e) && Rescued(e)
    decreases |run|
  {
    if run == [] {
    } else {
      StepInv(s, run[0]);
      StaysWokenUp(s, run[0]);
      RescuedStep(s, run[0]);
      RescuedRun(Do(s, run[0]), run[1..]);
    }
  }

  /** As long as stop() has not returned, some thread can take a step. */
  lemma ShutdownGoesOn(s: State)
    requires Inv(s) && Rescued(s) && s.control.CJoin?
    ensures exists a :: IsStep(a) && Enabled(s, a)
  {
    var k := s.control.next;
    if s.owner.Some? {
      var a := OwnerCanStep(s);
      assert IsStep(a);
    } else if !Awake(s) {
      var w: nat, p: nat :| OneSleeper(s, w) && Coming(s, p);
      assert ProducerOk(s, p);
      assert IsStep(ProducerStep(p, 0)) && Enabled(s, ProducerStep(p, 0));
    } else if k < |s.workers| && k in s.isRunning && !s.workers[k].WDone? {
      assert WorkerOk(s, k);
      assert IsStep(WorkerStep(k, 0)) && Enabled(s, WorkerStep(k, 0));
    } else {
      assert IsStep(ControlStep(true)) && Enabled(s, ControlStep(true));
    }
  }

  // ---------- stop() hangs ----------

  /** When wakeup() broadcasts: a worker is committed to sleep, and nobody is going to push. */
  ghost predicate CanHang(s: State) {
    && (exists w: nat :: w < |s.workers| && s.workers[w].WSleep?)
    && (s.queSize == 0 || forall p: nat | p < |s.producers| :: s.producers[p].PIdle?)
  }

  /** A worker that is committed to sleep owns the mutex; with room for a task, a producer then waits for the mutex. */
  lemma SomebodyWantsTheMutex(s: State, w: nat) returns (p: nat)
    requires Inv(s) && s.queSize >= 1 && w < |s.workers| && s.workers[w].WSleep?
    requires exists q: nat :: q < |s.producers| && !s.producers[q].PIdle?
    ensures s.que == [] && p < |s.producers| && (s.producers[p].PLock? || s.producers[p].PWoken?)
  {
    assert WorkerOk(s, w);
    p :| p < |s.producers| && !s.producers[p].PIdle?;
    assert ProducerOk(s, p);
    if s.producers[p].PWaiting? {
      assert p in s.notFull && s.notFullWoken != {};
      p :| p in s.notFullWoken;
      assert ProducerOk(s, p);
    }
  }

  lemma RescuedAfterBroadcast(s: State)
    requires Inv(s) && s.control.CBroadcast? && !CanHang(s)
    ensures Rescued(ControlDo(s, true))
  {
    var s1 := ControlDo(s, true);
    if w: nat :| w < |s.workers| && s.workers[w].WSleep? {
      var p := SomebodyWantsTheMutex(s, w);
      assert WorkerOk(s, w);
      forall v: nat | v < |s1.workers| && v != w ensures !Sleepy(s1.workers[v]) {
        assert WorkerOk(s, v);
      }
      assert OneSleeper(s1, w) && Coming(s1, p);
    } else {
      assert Awake(s1);
    }
  }

  /** Worker w is blocked, stop() has yet to join it, and nobody is going to signal. */
  predicate Trapped(s: State, w: nat) {
    && s.control.CJoin? && s.control.next <= w < |s.workers| && w in s.isRunning && s.workers[w].WWaiting?
    && forall p: nat | p < |s.producers| :: s.producers[p].PIdle? || (s.queSize == 0 && !s.producers[p].PNotify?)
  }

  lemma TrappedProducer(s: State, w: nat, p: nat, chosen: nat)
    requires Trapped(s, w) && ProducerEnabled(s, p, chosen) && ProducerOk(s, p)
    ensures Trapped(ProducerDo(s, p, chosen), w)
  {
    ProducerKeepsControl(s, p, chosen);
  }

  lemma TrappedWorker(s: State, w: nat, v: nat, chosen: nat)
    requires Trapped(s, w) && WorkerEnabled(s, v, chosen)
    requires chosen < |s.producers| ==> ProducerOk(s, chosen)
    ensures Trapped(WorkerDo(s, v, chosen), w)
  {
    WorkerKeepsControl(s, v, chosen);
    var s' := WorkerDo(s, v, chosen);
    assert s'.workers[w] == s.workers[w];
  }

  lemma TrappedStep(s: State, w: nat, a: Action)
    requires Inv(s) && Trapped(s, w) && Enabled(s, a) && a != SpuriousWorker(w)
    requires s.queSize == 0 || !a.AddTask?
    ensures Trapped(Do(s, a), w)
  {
    match a
    case ProducerStep(p, chosen) =>
      assert ProducerOk(s, p);
      TrappedProducer(s, w, p, chosen);
    case WorkerStep(v, chosen) =>
      if chosen < |s.producers| { assert ProducerOk(s, chosen); }
      TrappedWorker(s, w, v, chosen);
    case _ =>
  }

  /** Nothing but a new call of addTask or a spurious wakeup of that worker lets stop() return. */
  lemma {:induction false} TrappedForEver(s: State, w: nat, run: seq<Action>)
    requires Inv(s) && Trapped(s, w) && Legal(s, run)
    requires forall a | a in run :: (s.queSize == 0 || !a.AddTask?) && a != SpuriousWorker(w)
    ensures Trapped(Exec(s, run), w) && !Exec(s, run).control.CStopped?
    decreases |run|
  {
    if run == [] {
    } else {
      StepInv(s, run[0]);
      QueSizeStays(s, run[0]);
      TrappedStep(s, w, run[0]);
      TrappedForEver(Do(s, run[0]), w, run[1..]);
    }
  }

  /** The worker goes to sleep after the broadcast. */
  lemma TrappedAfterBroadcast(s: State, w: nat)
    requires Inv(s) && s.control.CBroadcast? && CanHang(s) && w < |s.workers| && s.workers[w].WSleep?
    ensures var s1 := ControlDo(s, true);
            Inv(s1) && Enabled(s1, WorkerStep(w, 0)) && Trapped(Do(s1, WorkerStep(w, 0)), w)
  {
    ControlInv(s, true);
    assert WorkerOk(s, w);
    forall p: nat | p < |s.producers| ensures !s.producers[p].PNotify? {
      assert ProducerOk(s, p);
    }
  }

  lemma HangingRun(s: State) returns (run: seq<Action>)
    requires Inv(s) && s.control.CBroadcast? && CanHang(s)
    ensures var s1 := ControlDo(s, true); Legal(s1, run) && Quiet(run) && Hung(Exec(s1, run))
  {
    var w: nat :| w < |s.workers| && s.workers[w].WSleep?;
    TrappedAfterBroadcast(s, w);
    var s1, a := ControlDo(s, true), WorkerStep(w, 0);
    StepInv(s1, a);
    var rest := RunOut(Do(s1, a));
    TrappedForEver(Do(s1, a), w, rest);
    Prepend(s1, a, rest);
    run := [a] + rest;
  }

  /**
   Exactly when stop() can hang: from the moment of the broadcast, without new calls and spurious wakeups, the threads
   can reach a state where nobody can step and stop() has not returned, if and only if a worker was between the loop
   test and the sleep, and no producer was inside addTask (or the capacity is 0).
   */
  lemma StopHangsExactly(s: State)
    requires Reachable(s) && s.control.CBroadcast?
    ensures var s1 := ControlDo(s, true);
            CanHang(s) <==> exists run | Legal(s1, run) :: Quiet(run) && Hung(Exec(s1, run))
  {
    var s1 := ControlDo(s, true);
    ReachableInv(s);
    if CanHang(s) {
      var run := HangingRun(s);
    } else {
      ControlInv(s, true);
      RescuedAfterBroadcast(s);
      forall run | Legal(s1, run) ensures !Hung(Exec(s1, run)) {
        RescuedRun(s1, run);
        if Exec(s1, run).control.CJoin? { ShutdownGoesOn(Exec(s1, run)); }
      }
    }
  }

  /**
   Otherwise stop() returns, whatever the scheduler does and also with new calls and spurious wakeups: the steps of all
   threads are bounded, and until stop() has returned some thread can step.
   */
  lemma StopReturns(s: State, run: seq<Action>)
    requires Reachable(s) && s.control.CBroadcast? && !CanHang(s) && Legal(ControlDo(s, true), run)
    ensures Steps(run) <= Left(ControlDo(s, true)) + 5 * Disturbances(run)
    ensures var e := Exec(ControlDo(s, true), run); e.control.CStopped? || exists a :: IsStep(a) && Enabled(e, a)
  {
    var s1 := ControlDo(s, true);
    ReachableInv(s);
    ControlInv(s, true);
    ShutdownIsBounded(s1, run);
    RescuedAfterBroadcast(s);
    RescuedRun(s1, run);
    if Exec(s1, run).control.CJoin? { ShutdownGoesOn(Exec(s1, run)); }
  }

  // ---------- The hang is reachable ----------

  /** One worker, no producers, an empty queue, and stop() has just been called. */
  predicate Lonely(s: State, queSize: nat, pc: WorkerPc) {
    && s.control == CDrain && s.workers == [pc] && s.isRunning == {0} && s.producers == []
    && s.que == [] && s.notEmpty == {} && s.notEmptyWoken == {} && s.queSize == queSize
  }

  lemma WorkerIsStarted(queSize: nat) returns (s: State)
    ensures Reachable(s) && Lonely(s, queSize, WLoop) && s.flag && !s.isExit && s.owner == None
  {
    s := Init(1, queSize, 0);
    var none: seq<Action> := [];
    assert Legal(s, none) && Exec(s, none) == s;
    s := Advance(s, ControlStep(true));      // create the worker
    s := Advance(s, ControlStep(true));      // start() returns
    s := Advance(s, ControlStep(true));      // stop() is called
  }

  lemma WorkerIsAboutToSleep(queSize: nat) returns (s: State)
    ensures Reachable(s) && Lonely(s, queSize, WSleep)
  {
    s := WorkerIsStarted(queSize);
    s := Advance(s, WorkerStep(0, 0));       // while(!_isExit)
    s := Advance(s, WorkerStep(0, 0));       // lock
    s := Advance(s, WorkerStep(0, 0));       // empty() && _flag
  }

  /**
   The schedule, for every capacity: the only worker finds the queue empty and _flag set; stop() then finds the queue
   empty, sets _isExit, clears _flag and broadcasts to nobody; then the worker goes to sleep.
   */
  lemma HangIsReachable(queSize: nat)
    ensures exists s :: Reachable(s) && s.queSize == queSize && Trapped(s, 0)
  {
    var s := WorkerIsAboutToSleep(queSize);
    s := Advance(s, ControlStep(true));      // the queue is empty
    s := Advance(s, ControlStep(true));      // _isExit = true
    s := Advance(s, ControlStep(true));      // _flag = false
    s := Advance(s, ControlStep(true));      // notifyAll
    s := Advance(s, WorkerStep(0, 0));       // wait
  }

  lemma Advance(s: State, a: Action) returns (s': State)
    requires Reachable(s) && Enabled(s, a)
    ensures Reachable(s') && s' == Do(s, a)
  {
    ReachableStep(s, a);
    s' := Do(s, a);
  }

}
