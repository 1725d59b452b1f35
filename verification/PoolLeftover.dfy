/**
 What stop() leaves behind.

 A task that is pushed after stop() has found the queue empty is never run, and a caller that finds the queue full
 after that stays blocked.  This module shows exactly when tasks are left over, and that both cases occur.
 */
module PoolLeftover {
  import opened Options
  import opened PoolModel
  import opened PoolInvariant
  import opened PoolSafety
  import opened PoolLiveness
  import opened PoolShutdown

  // ---------- No task is taken after _flag has been cleared ----------

  /** No worker is about to take the front of the queue. */
  predicate NoTaker(s: State) {
    forall w: nat | w < |s.workers| :: !s.workers[w].WTake?
  }

  lemma NoTakerAt(s: State, a: Action, v: nat)
    requires Enabled(s, a) && !s.flag && v < |s.workers| == |Do(s, a).workers| && !s.workers[v].WTake?
    ensures !Do(s, a).workers[v].WTake?
  {
    match a
    case ProducerStep(p, chosen) =>
    case _ =>
  }

  lemma NothingTaken(s: State, a: Action)
    requires Enabled(s, a) && NoTaker(s)
    ensures Do(s, a).popped == s.popped
  {
    match a
    case ProducerStep(p, chosen) =>
    case WorkerStep(w, chosen) =>
    case _ =>
  }

  lemma {:induction false} NothingTakenInRun(s: State, run: seq<Action>)
    requires Inv(s) && WokenUp(s) && NoTaker(s) && Legal(s, run)
    ensures Exec(s, run).popped == s.popped
    decreases |run|
  {
    if run == [] {
    } else {
      var s1 := Do(s, run[0]);
      StepInv(s, run[0]);
      StaysWokenUp(s, run[0]);
      NothingTaken(s, run[0]);
      forall v: nat | v < |s1.workers| ensures !s1.workers[v].WTake? { NoTakerAt(s, run[0], v); }
      NothingTakenInRun(s1, run[1..]);
    }
  }

  // ---------- Exactly when tasks are left over ----------

  lemma {:induction false} QuietOffersNothing(run: seq<Action>)
    requires Quiet(run)
    ensures Offered(run) == 0
  {
    if run == [] {
    } else {
      assert run[0] in run;
      QuietOffersNothing(run[1..]);
    }
  }

  lemma {:induction false} SomebodyCarries(pcs: seq<ProducerPc>) returns (p: nat)
    requires Total(pcs, ToPush) > 0
    ensures p < |pcs| && ToPush(pcs[p]) == 1
  {
    if ToPush(pcs[0]) == 1 {
      p := 0;
    } else {
      p := SomebodyCarries(pcs[1..]);
      p := p + 1;
    }
  }

  /** After the successful test, stop() sets _isExit, clears _flag and broadcasts before anybody else acts. */
  lemma StopAtOnce(s: State) returns (b: State)
    requires Reachable(s) && s.control.CDrain? && Empty(s)
    ensures var s1 := ControlDo(s, true); ControlEnabled(s1) && ControlEnabled(ControlDo(s1, true))
    ensures b == ControlDo(ControlDo(ControlDo(s, true), true), true)
    ensures Reachable(b) && b.control.CBroadcast? && NoTaker(b) && b.que == [] && b.queSize == s.queSize
    ensures b.producers == s.producers && b.pushed == s.pushed && b.popped == s.popped
  {
    var step := ControlStep(true);
    ReachableInv(s);
    forall w: nat | w < |s.workers| ensures !s.workers[w].WTake? { assert WorkerOk(s, w); }
    b := Advance(s, step);
    b := Advance(b, step);
    b := Advance(b, step);
  }

  /** Nobody can take a step, and a producer carries a task: then the queue is full. */
  lemma CarrierFindsFullQueue(s: State, p: nat)
    requires Inv(s) && Stuck(s) && p < |s.producers| && ToPush(s.producers[p]) == 1
    ensures |s.que| >= s.queSize
  {
    if s.owner.Some? {
      var a := OwnerCanStep(s);
      assert IsStep(a);
      assert false;
    }
    forall q: nat | q < |s.producers| ensures !s.producers[q].PLock? && !s.producers[q].PWoken? {
      var a := ProducerStep(q, 0);
      assert IsStep(a) && !Enabled(s, a);
    }
    assert ProducerOk(s, p);
    forall q: nat ensures q !in s.notFullWoken {
      if q < |s.producers| { assert ProducerOk(s, q); }
    }
    assert s.notFullWoken == {};
  }

  /** From the broadcast on, a carried task stays in the queue when stop() returns. */
  lemma CarriedTaskIsLeft(b: State) returns (run: seq<Action>)
    requires Reachable(b) && b.control.CBroadcast? && NoTaker(b) && b.que == [] && b.queSize >= 1
    requires Total(b.producers, ToPush) > 0
    ensures var s1 := ControlDo(b, true);
            && Legal(s1, run) && Offered(run) == 0
            && Exec(s1, run).control.CStopped? && Exec(s1, run).que != []
  {
    var s1 := ControlDo(b, true);
    ReachableInv(b);
    ControlInv(b, true);
    var p := SomebodyCarries(b.producers);
    RescuedAfterBroadcast(b);
    run := RunOut(s1);
    var e := Exec(s1, run);
    RescuedRun(s1, run);
    QuietOffersNothing(run);
    NothingTakenInRun(s1, run);
    RunAccepted(s1, run);
    if e.control.CJoin? {
      ShutdownGoesOn(e);
      assert false;
    }
    if Total(e.producers, ToPush) > 0 {
      var q := SomebodyCarries(e.producers);
      CarrierFindsFullQueue(e, q);
      QueSizeStaysInRun(s1, run);
    }
  }

  lemma {:induction false} QueSizeStaysInRun(s: State, run: seq<Action>)
    requires Legal(s, run)
    ensures Exec(s, run).queSize == s.queSize
    decreases |run|
  {
    if run == [] {
    } else {
      QueSizeStays(s, run[0]);
      QueSizeStaysInRun(Do(s, run[0]), run[1..]);
    }
  }

  /** If nobody carries a task when stop() finds the queue empty, nothing is left over without new calls. */
  lemma NothingLeft(s: State, run: seq<Action>)
    requires Reachable(s) && s.control.CDrain? && Empty(s)
    requires s.queSize == 0 || Total(s.producers, ToPush) == 0
    requires Legal(ControlDo(s, true), run) && Offered(run) == 0 && Exec(ControlDo(s, true), run).control.CStopped?
    ensures Exec(ControlDo(s, true), run).que == []
  {
    var s1 := ControlDo(s, true);
    ShutdownIsExactlyOnce(s, run);
    ReachableStep(s, ControlStep(true));
    ReachableInv(s1);
    RunInv(s1, run);
    QueSizeStaysInRun(s1, run);
    RunAccepted(s1, run);
  }

  /** Whenever stop() returns without a new call of addTask, the queue is empty. */
  ghost predicate LeavesNothing(s: State) {
    forall run | Legal(s, run) && Offered(run) == 0 && Exec(s, run).control.CStopped? :: Exec(s, run).que == []
  }

  /**
   Exactly when stop() leaves tasks behind, although nobody calls addTask any more: some run in which stop() returns
   leaves a task in the queue if and only if, when stop() found the queue empty, a producer was inside addTask with a
   task it had not pushed yet (and the capacity is not 0).
   */
  lemma LeftoverExactly(s: State)
    requires Reachable(s) && s.control.CDrain? && Empty(s)
    ensures LeavesNothing(ControlDo(s, true)) <==> s.queSize == 0 || Total(s.producers, ToPush) == 0
  {
    var s1 := ControlDo(s, true);
    if s.queSize == 0 || Total(s.producers, ToPush) == 0 {
      forall run | Legal(s1, run) && Offered(run) == 0 && Exec(s1, run).control.CStopped?
        ensures Exec(s1, run).que == []
      {
        NothingLeft(s, run);
      }
    } else {
      var b := StopAtOnce(s);
      var rest := CarriedTaskIsLeft(b);
      var step := ControlStep(true);
      Prepend(b, step, rest);
      Prepend(ControlDo(s1, true), step, [step] + rest);
      Prepend(s1, step, [step] + ([step] + rest));
      var run := [step] + ([step] + ([step] + rest));
      OfferedPrepend([step] + ([step] + rest));
      OfferedPrepend([step] + rest);
      OfferedPrepend(rest);
      assert Exec(s1, run).que != [];
    }
  }

  lemma OfferedPrepend(run: seq<Action>)
    ensures Offered([ControlStep(true)] + run) == Offered(run)
  {
    assert ([ControlStep(true)] + run)[1..] == run;
  }

  // ---------- Exactly when there is a deadlock ----------

  /** start() still has a thread to create. */
  predicate Starting(s: State) { s.control.CStart? && s.control.next < |s.workers| }

  /** All workers have left and all callers are blocked, for good. */
  predicate Frozen(s: State) { AllLeft(s) && CallersBlocked(s) && !Starting(s) }

  lemma FrozenStep(s: State, a: Action)
    requires Inv(s) && Frozen(s) && IsStep(a) && Enabled(s, a)
    ensures !IsWork(a) && Frozen(Do(s, a))
  {
    if IsWork(a) {
      StuckWhenAllLeft(s, a);
    } else {
      FrozenControl(s, a.ok);
    }
  }

  lemma FrozenControl(s: State, ok: bool)
    requires Inv(s) && Frozen(s) && ControlEnabled(s)
    ensures Frozen(ControlDo(s, ok))
  {
    var s' := ControlDo(s, ok);
    forall w: nat | w < |s'.workers| && w in s'.isRunning ensures s'.workers[w].WDone? {
      assert w in s.isRunning && s.workers[w].WDone?;
    }
  }

  lemma {:induction false} FrozenRun(s: State, run: seq<Action>)
    requires Inv(s) && Frozen(s) && Legal(s, run) && Quiet(run)
    ensures Work(run) == 0
    decreases |run|
  {
    if run == [] {
    } else {
      assert run[0] in run;
      StepInv(s, run[0]);
      FrozenStep(s, run[0]);
      forall a | a in run[1..] ensures IsStep(a) { assert a in run; }
      FrozenRun(Do(s, run[0]), run[1..]);
    }
  }

  lemma TwoSteps(s: State, a: Action, b: Action)
    requires Enabled(s, a) && Enabled(Do(s, a), b)
    ensures Legal(s, [a, b])
  {
    var none: seq<Action> := [];
    assert [a, b][1..] == [b] && [b][1..] == none;
    assert Legal(Do(Do(s, a), b), none);
  }

  /** Otherwise somebody can work, at once or after start() has created a thread. */
  lemma SomebodyWorks(s: State) returns (run: seq<Action>)
    requires Reachable(s) && s.flag && s.queSize >= 1 && !Frozen(s)
    requires s.que != [] || exists p: nat :: p < |s.producers| && !s.producers[p].PIdle?
    ensures Legal(s, run) && Quiet(run) && Work(run) > 0
  {
    var none: seq<Action> := [];
    if AllLeft(s) && CallersBlocked(s) {
      var k := s.control.next;
      var a, b := ControlStep(true), WorkerStep(k, 0);
      assert Enabled(Do(s, a), b);
      TwoSteps(s, a, b);
      run := [a, b];
      assert run[1..] == [b] && [b][1..] == none;
      assert Work([b]) == 1 + Work(none);
    } else {
      NoDeadlock(s);
      var a :| IsWork(a) && Enabled(s, a);
      run := [a];
      assert run[1..] == none && Legal(Do(s, a), none);
      assert Work(run) == 1 + Work(none);
    }
  }

  /** Without new calls and spurious wakeups, no producer or worker ever takes a step again. */
  ghost predicate Dead(s: State) {
    forall run | Legal(s, run) && Quiet(run) :: Work(run) == 0
  }

  /**
   Exactly when the pool is dead before _flag is cleared, with a task in the queue or a producer inside addTask: if all
   workers have left, all callers are blocked, and start() has no thread left to create.
   */
  lemma DeadExactly(s: State)
    requires Reachable(s) && s.flag && s.queSize >= 1
    requires s.que != [] || exists p: nat :: p < |s.producers| && !s.producers[p].PIdle?
    ensures Dead(s) <==> Frozen(s)
  {
    ReachableInv(s);
    if Frozen(s) {
      forall run | Legal(s, run) && Quiet(run) ensures Work(run) == 0 { FrozenRun(s, run); }
    } else {
      var run := SomebodyWorks(s);
    }
  }

  // ---------- It occurs ----------

  /** One worker that has left doTask, one producer, a queue of capacity 1, and stop() is about to clear _flag. */
  predicate Late(s: State, que: seq<Callback>, pc: ProducerPc) {
    && s.workers == [WDone] && s.producers == [pc] && s.que == que && s.queSize == 1 && s.control == CFlag
    && s.flag && s.isExit && s.isRunning == {0} && s.notEmpty == {} && s.notEmptyWoken == {}
  }

  /** The same pool while its worker is still about to test _isExit. */
  predicate Early(s: State, control: ControlPc) {
    && s.workers == [WLoop] && s.producers == [PIdle] && s.que == [] && s.queSize == 1 && s.control == control
    && s.flag && s.isRunning == {0} && s.notEmpty == {} && s.notEmptyWoken == {} && s.owner == None
  }

  lemma WorkerIsCreated() returns (s: State)
    ensures Reachable(s) && Early(s, CStart(1))
  {
    s := Init(1, 1, 1);
    var none: seq<Action> := [];
    assert Legal(s, none) && Exec(s, none) == s;
    s := Advance(s, ControlStep(true));      // create the worker
    assert s.workers == [WLoop] && s.producers == [PIdle];
  }

  lemma StopIsCalled() returns (s: State)
    ensures Reachable(s) && Early(s, CDrain)
  {
    s := WorkerIsCreated();
    s := Advance(s, ControlStep(true));      // start() returns
    s := Advance(s, ControlStep(true));      // stop() is called
  }

  lemma WorkerHasLeft() returns (s: State)
    ensures Reachable(s) && Late(s, [], PIdle) && s.owner == None
  {
    s := StopIsCalled();
    s := Advance(s, ControlStep(true));      // the queue is empty
    s := Advance(s, ControlStep(true));      // _isExit = true
    s := Advance(s, WorkerStep(0, 0));       // while(!_isExit)
  }

  lemma TaskIsPushedLate(cb: Callback) returns (s: State)
    ensures Reachable(s) && Late(s, [cb], PIdle) && s.owner == None
  {
    s := WorkerHasLeft();
    s := Advance(s, AddTask(0, Some(cb)));
    s := Advance(s, ProducerStep(0, 0));     // lock
    s := Advance(s, ProducerStep(0, 0));     // full()
    s := Advance(s, ProducerStep(0, 0));     // push
    s := Advance(s, ProducerStep(0, 0));     // notify
    s := Advance(s, ProducerStep(0, 0));     // unlock
  }

  lemma CallerIsBlocked(cb: Callback) returns (s: State)
    ensures Reachable(s) && Late(s, [cb], PWaiting(cb)) && s.owner == None
  {
    s := TaskIsPushedLate(cb);
    s := Advance(s, AddTask(0, Some(cb)));
    s := Advance(s, ProducerStep(0, 0));     // lock
    s := Advance(s, ProducerStep(0, 0));     // full()
    s := Advance(s, ProducerStep(0, 0));     // wait
  }

  /** A deadlock occurs: a caller is blocked on a full queue, and the only worker has left. */
  lemma DeadlockIsReachable(cb: Callback)
    ensures exists s :: && Reachable(s) && s.flag && s.owner == None && s.que == [cb] && s.producers == [PWaiting(cb)]
                        && s.workers == [WDone] && s.queSize == 1 && Dead(s)
  {
    var s := CallerIsBlocked(cb);
    DeadExactly(s);
  }

  /** stop() returns, a task is left in the queue, and a caller is blocked because the queue is full. */
  lemma LeftoverIsReachable(cb: Callback)
    ensures exists s :: && Reachable(s) && s.control.CStopped? && s.que == [cb] && Full(s)
                        && s.producers == [PWaiting(cb)]
  {
    var s := CallerIsBlocked(cb);
    s := Advance(s, ControlStep(true));      // _flag = false
    s := Advance(s, ControlStep(true));      // notifyAll
    assert s.workers == [WDone];
    s := Advance(s, ControlStep(true));      // join
    s := Advance(s, ControlStep(true));      // stop() returns
  }

}
