/**
 Progress: when the pool can go on before wakeup(), every accepted task runs, and the drain loop of stop() ends.

 A callback is assumed to return, so the step of a worker inside a callback is always enabled.  No fairness is
 assumed: the bounds count the steps of all threads together.
 */
module PoolLiveness {
  import opened Options
  import opened PoolModel
  import opened PoolInvariant
  import opened PoolSafety

  // ---------- Sums over threads ----------

  function Total<T>(xs: seq<T>, rank: T -> nat): nat {
    if xs == [] then 0 else rank(xs[0]) + Total(xs[1..], rank)
  }

  lemma {:induction false} TotalUpdate<T>(xs: seq<T>, rank: T -> nat, i: nat, x: T)
    requires i < |xs|
    ensures Total(xs[i := x], rank) + rank(xs[i]) == Total(xs, rank) + rank(x)
  {
    if i == 0 {
      assert xs[0 := x][1..] == xs[1..];
    } else {
      assert xs[i := x][1..] == xs[1..][i - 1 := x];
      TotalUpdate(xs[1..], rank, i - 1, x);
    }
  }

  lemma {:induction false} TotalZero<T>(xs: seq<T>, rank: T -> nat)
    requires forall x | x in xs :: rank(x) == 0
    ensures Total(xs, rank) == 0
  {
    if xs == [] {
    } else {
      TotalZero(xs[1..], rank);
    }
  }

  // ---------- Every accepted task is pushed exactly once ----------

  /** How many non-empty tasks have been handed to addTask. */
  function Offered(run: seq<Action>): nat {
    if run == [] then 0 else (if run[0].AddTask? && run[0].task.Some? then 1 else 0) + Offered(run[1..])
  }

  /** 1 while a producer carries a task that it has not pushed yet. */
  function ToPush(pc: ProducerPc): nat {
    match pc
    case PIdle => 0
    case PNotify => 0
    case PUnlock => 0
    case _ => 1
  }

  /** Tasks that have been pushed or are on their way. */
  function Accepted(s: State): nat { |s.pushed| + Total(s.producers, ToPush) }

  lemma ProducerAccepted(s: State, p: nat, chosen: nat)
    requires ProducerEnabled(s, p, chosen)
    ensures Accepted(ProducerDo(s, p, chosen)) == Accepted(s)
  {
    TotalUpdate(s.producers, ToPush, p, ProducerDo(s, p, chosen).producers[p]);
  }

  lemma WorkerAccepted(s: State, w: nat, chosen: nat)
    requires WorkerEnabled(s, w, chosen)
    ensures Accepted(WorkerDo(s, w, chosen)) == Accepted(s)
  {
    if s.workers[w].WNotify? && s.notFull != {} {
      TotalUpdate(s.producers, ToPush, chosen, Woken(s.producers[chosen]));
    }
  }

  lemma StepAccepted(s: State, a: Action)
    requires Enabled(s, a)
    ensures Accepted(Do(s, a)) == Accepted(s) + Offered([a])
  {
    match a
    case AddTask(p, task) => if task.Some? { TotalUpdate(s.producers, ToPush, p, PLock(task.value)); }
    case ProducerStep(p, chosen) => ProducerAccepted(s, p, chosen);
    case WorkerStep(w, chosen) => WorkerAccepted(s, w, chosen);
    case SpuriousProducer(p) => TotalUpdate(s.producers, ToPush, p, Woken(s.producers[p]));
    case _ =>
  }

  lemma {:induction false} RunAccepted(s: State, run: seq<Action>)
    requires Legal(s, run)
    ensures Accepted(Exec(s, run)) == Accepted(s) + Offered(run)
    decreases |run|
  {
    if run == [] {
    } else {
      StepAccepted(s, run[0]);
      RunAccepted(Do(s, run[0]), run[1..]);
    }
  }

  /** Over every run, as many tasks have been pushed as were handed to addTask, but for those still on their way. */
  lemma AcceptedArePushed(threadNum: nat, queSize: nat, producerNum: nat, run: seq<Action>)
    requires Legal(Init(threadNum, queSize, producerNum), run)
    ensures var e := Exec(Init(threadNum, queSize, producerNum), run);
            |e.pushed| + Total(e.producers, ToPush) == Offered(run)
  {
    var s := Init(threadNum, queSize, producerNum);
    TotalZero(s.producers, ToPush);
    RunAccepted(s, run);
  }

  // ---------- Counting actions ----------

  /** Steps that threads make on their own account. */
  predicate IsWork(a: Action) { a.ProducerStep? || a.WorkerStep? }

  function Work(run: seq<Action>): nat {
    if run == [] then 0 else (if IsWork(run[0]) then 1 else 0) + Work(run[1..])
  }

  /** What the environment adds: new calls and spurious wakeups.  The steps of the control thread add nothing. */
  function Input(run: seq<Action>): nat {
    if run == [] then 0
    else (match run[0]
          case AddTask(_, _) => 20
          case SpuriousProducer(_) => 3
          case SpuriousWorker(_) => 3
          case _ => 0)
         + Input(run[1..])
  }

  // ---------- Before wakeup: every accepted task runs ----------

  function ProducerRank(pc: ProducerPc): nat {
    match pc
    case PIdle => 0
    case PLock(_) => 20
    case PWoken(_) => 20
    case PTest(_) => 19
    case PSleep(_) => 18
    case PPush(_) => 18
    case PWaiting(_) => 17
    case PNotify => 5
    case PUnlock => 1
  }

  function WorkerRank(pc: WorkerPc): nat {
    match pc
    case WDone => 0
    case WWaiting => 0
    case WTake => 0
    case WFlag => 1
    case WSleep => 1
    case WTest => 2
    case WWoken => 3
    case WLock => 3
    case WNotStarted => 4
    case WLoop => 4
    case WRun(_, _) => 5
    case WGot(_) => 6
    case WUnlock(_) => 7
    case WNotify(_, _) => 11
  }

  /** An upper bound on the steps that producers and workers can still make while _flag is set. */
  function Pending(s: State): nat {
    12 * |s.que| + Total(s.producers, ProducerRank) + Total(s.workers, WorkerRank)
  }

  /** Waking a worker costs 3. */
  lemma SignalNotEmptyPending(s: State, chosen: nat)
    requires s.notEmpty != {} ==> chosen < |s.workers| && s.workers[chosen].WWaiting?
    ensures Pending(SignalNotEmpty(s, chosen)) <= Pending(s) + 3
  {
    if s.notEmpty != {} {
      TotalUpdate(s.workers, WorkerRank, chosen, WWoken);
    }
  }

  /** Waking a producer costs 3. */
  lemma SignalNotFullPending(s: State, chosen: nat)
    requires s.notFull != {} ==> chosen < |s.producers| && s.producers[chosen].PWaiting?
    ensures Pending(SignalNotFull(s, chosen)) <= Pending(s) + 3
  {
    if s.notFull != {} {
      TotalUpdate(s.producers, ProducerRank, chosen, Woken(s.producers[chosen]));
    }
  }

  lemma PushWaitPending(s: State, p: nat)
    requires p < |s.producers| && InPushWait(s.producers[p])
    ensures Pending(PushWait(s, p)) < Pending(s)
  {
    TotalUpdate(s.producers, ProducerRank, p, PushWait(s, p).producers[p]);
  }

  lemma PushPutPending(s: State, p: nat, chosen: nat)
    requires ProducerEnabled(s, p, chosen) && !InPushWait(s.producers[p])
    requires s.notEmpty != {} && s.producers[p].PNotify? ==> s.workers[chosen].WWaiting?
    ensures Pending(PushPut(s, p, chosen)) < Pending(s)
  {
    TotalUpdate(s.producers, ProducerRank, p, PushPut(s, p, chosen).producers[p]);
    if s.producers[p].PNotify? {
      SignalNotEmptyPending(s, chosen);
    }
  }

  lemma ProducerStepPending(s: State, p: nat, chosen: nat)
    requires Inv(s) && ProducerEnabled(s, p, chosen)
    ensures Pending(ProducerDo(s, p, chosen)) < Pending(s)
  {
    if InPushWait(s.producers[p]) {
      PushWaitPending(s, p);
    } else {
      if chosen < |s.workers| { assert WorkerOk(s, chosen); }
      PushPutPending(s, p, chosen);
    }
  }

  lemma PopWaitPending(s: State, w: nat)
    requires w < |s.workers| && InPopWait(s.workers[w]) && s.flag
    ensures Pending(PopWait(s, w)) < Pending(s)
  {
    TotalUpdate(s.workers, WorkerRank, w, PopWait(s, w).workers[w]);
  }

  lemma PopTakePending(s: State, w: nat, chosen: nat)
    requires WorkerEnabled(s, w, chosen) && !InPopWait(s.workers[w]) && !InTaskLoop(s.workers[w])
    requires s.notFull != {} && s.workers[w].WNotify? ==> s.producers[chosen].PWaiting?
    ensures Pending(PopTake(s, w, chosen)) < Pending(s)
  {
    TotalUpdate(s.workers, WorkerRank, w, PopTake(s, w, chosen).workers[w]);
    if s.workers[w].WNotify? {
      SignalNotFullPending(s, chosen);
    }
  }

  lemma TaskLoopPending(s: State, w: nat)
    requires w < |s.workers| && InTaskLoop(s.workers[w])
    ensures Pending(TaskLoop(s, w)) < Pending(s)
  {
    TotalUpdate(s.workers, WorkerRank, w, TaskLoop(s, w).workers[w]);
  }

  lemma WorkerStepPending(s: State, w: nat, chosen: nat)
    requires Inv(s) && WorkerEnabled(s, w, chosen) && s.flag
    ensures Pending(WorkerDo(s, w, chosen)) < Pending(s)
  {
    if InPopWait(s.workers[w]) {
      PopWaitPending(s, w);
    } else if InTaskLoop(s.workers[w]) {
      TaskLoopPending(s, w);
    } else {
      if chosen < |s.producers| { assert ProducerOk(s, chosen); }
      PopTakePending(s, w, chosen);
    }
  }

  lemma InputPending(s: State, a: Action)
    requires Inv(s) && Enabled(s, a) && !IsWork(a) && Do(s, a).flag
    ensures Pending(Do(s, a)) <= Pending(s) + Input([a])
  {
    match a
    case AddTask(p, task) =>
      if task.Some? { TotalUpdate(s.producers, ProducerRank, p, PLock(task.value)); }
    case ControlStep(ok) =>
      if s.control.CStart? && s.control.next < |s.workers| {
        assert WorkerOk(s, s.control.next);
        TotalUpdate(s.workers, WorkerRank, s.control.next, WLoop);
      }
    case SpuriousProducer(p) => TotalUpdate(s.producers, ProducerRank, p, Woken(s.producers[p]));
    case SpuriousWorker(w) => TotalUpdate(s.workers, WorkerRank, w, WWoken);
  }

  lemma StepPending(s: State, a: Action)
    requires Inv(s) && Enabled(s, a) && s.flag && Do(s, a).flag
    ensures Work([a]) + Pending(Do(s, a)) <= Pending(s) + Input([a])
  {
    match a
    case ProducerStep(p, chosen) => ProducerStepPending(s, p, chosen);
    case WorkerStep(w, chosen) => WorkerStepPending(s, w, chosen);
    case _ => InputPending(s, a);
  }

  lemma {:induction false} FlagFalls(s: State, run: seq<Action>)
    requires Legal(s, run) && Exec(s, run).flag
    ensures s.flag
    decreases |run|
  {
    if run == [] {
    } else {
      FlagFalls(Do(s, run[0]), run[1..]);
    }
  }

  /**
   While _flag is set, the number of steps that all producers and workers together can make is bounded by what is
   pending plus what the environment adds; each new call of addTask buys at most 20 steps.
   */
  lemma {:induction false} WorkIsBounded(s: State, run: seq<Action>)
    requires Inv(s) && Legal(s, run) && Exec(s, run).flag
    ensures Work(run) + Pending(Exec(s, run)) <= Pending(s) + Input(run)
    decreases |run|
  {
    if run == [] {
    } else {
      var s1 := Do(s, run[0]);
      FlagFalls(s1, run[1..]);
      FlagFalls(s, run);
      StepInv(s, run[0]);
      StepPending(s, run[0]);
      WorkIsBounded(s1, run[1..]);
    }
  }

  /** The step of a thread that owns the mutex is enabled. */
  lemma OwnerCanStep(s: State) returns (a: Action)
    requires Inv(s) && s.owner.Some?
    ensures IsWork(a) && Enabled(s, a)
    ensures s.owner == Some(if a.ProducerStep? then Producer(a.p) else Worker(a.w))
  {
    match s.owner.value
    case Producer(p) =>
      assert ProducerOk(s, p);
      var chosen: nat := 0;
      if s.notEmpty != {} { chosen :| chosen in s.notEmpty; }
      a := ProducerStep(p, chosen);
    case Worker(w) =>
      assert WorkerOk(s, w);
      var chosen: nat := 0;
      if s.notFull != {} { chosen :| chosen in s.notFull; }
      a := WorkerStep(w, chosen);
  }

  /** Every worker thread that was created has left doTask. */
  predicate AllLeft(s: State) {
    forall w: nat | w < |s.workers| && w in s.isRunning :: s.workers[w].WDone?
  }

  /** Every producer is outside addTask or blocked on _notFull. */
  predicate CallersBlocked(s: State) {
    forall p: nat | p < |s.producers| :: s.producers[p].PIdle? || s.producers[p].PWaiting?
  }

  lemma StuckWhenAllLeft(s: State, a: Action)
    requires Inv(s) && AllLeft(s) && CallersBlocked(s) && IsWork(a)
    ensures !Enabled(s, a)
  {
    if a.WorkerStep? && a.w < |s.workers| { assert WorkerOk(s, a.w); }
  }

  /**
   Exactly when a producer or worker can take a step before _flag is cleared, with a task in the queue or a producer
   inside addTask: unless all workers have left doTask and all callers are blocked.
   */
  lemma NoDeadlock(s: State)
    requires Reachable(s) && s.flag && s.queSize >= 1
    requires s.que != [] || exists p: nat :: p < |s.producers| && !s.producers[p].PIdle?
    ensures (exists a :: IsWork(a) && Enabled(s, a)) <==> !(AllLeft(s) && CallersBlocked(s))
  {
    ReachableInv(s);
    if AllLeft(s) && CallersBlocked(s) {
      forall a | IsWork(a) ensures !Enabled(s, a) { StuckWhenAllLeft(s, a); }
    } else if s.owner.Some? {
      var a := OwnerCanStep(s);
    } else if w: nat :| w < |s.workers| && CanGoOn(s.workers[w]) {
      assert Enabled(s, WorkerStep(w, 0)) && IsWork(WorkerStep(w, 0));
    } else if p: nat :| p < |s.producers| && (s.producers[p].PLock? || s.producers[p].PWoken?) {
      assert Enabled(s, ProducerStep(p, 0)) && IsWork(ProducerStep(p, 0));
    } else {
      forall p: nat | p < |s.producers| ensures s.producers[p].PIdle? || s.producers[p].PWaiting? {
        assert ProducerOk(s, p);
      }
      var w: nat :| w < |s.workers| && w in s.isRunning && !s.workers[w].WDone?;
      NobodyIsLeftBehind(s, w);
      assert false;
    }
  }

  /** With the mutex free, the step of such a worker is enabled. */
  predicate CanGoOn(pc: WorkerPc) {
    pc.WLoop? || pc.WGot? || pc.WRun? || pc.WLock? || pc.WWoken?
  }

  /** The heart of NoDeadlock: not everybody can be blocked. */
  lemma NobodyIsLeftBehind(s: State, w: nat)
    requires Inv(s) && s.flag && s.queSize >= 1 && s.owner == None
    requires w < |s.workers| && w in s.isRunning && !s.workers[w].WDone?
    requires forall v: nat | v < |s.workers| :: !CanGoOn(s.workers[v])
    requires CallersBlocked(s)
    ensures s.que == [] && forall p: nat | p < |s.producers| :: s.producers[p].PIdle?
  {
    assert WorkerOk(s, w);
    assert w in s.notEmpty;
    forall v: nat ensures v !in s.notEmptyWoken {
      if v < |s.workers| { assert WorkerOk(s, v); }
    }
    assert s.notEmptyWoken == {};
    forall p: nat ensures p !in s.notFullWoken {
      if p < |s.producers| { assert ProducerOk(s, p); }
    }
    assert s.notFullWoken == {};
    forall p: nat | p < |s.producers| ensures s.producers[p].PIdle? {
      assert ProducerOk(s, p);
    }
  }

  /**
   When nobody can take a step any more and a worker has not left, all accepted tasks have been called and have
   returned exactly once.  Together with WorkIsBounded: if the callers stop calling, every accepted task runs within
   Pending(s) steps.
   */
  lemma QuietMeansDone(s: State)
    requires Reachable(s) && s.flag && s.queSize >= 1 && !AllLeft(s)
    requires forall a :: IsWork(a) ==> !Enabled(s, a)
    ensures s.que == [] && (forall p: nat | p < |s.producers| :: s.producers[p].PIdle?)
    ensures |s.calls| == |s.completed| == |s.pushed|
    ensures forall t: nat | t < |s.pushed| :: s.calls[t] == 1 && s.completed[t] == 1
  {
    ReachableInv(s);
    if s.que != [] || exists p: nat :: p < |s.producers| && !s.producers[p].PIdle? {
      NoDeadlock(s);
      assert false;
    }
    forall t: nat | t < |s.pushed| ensures s.calls[t] == 1 && s.completed[t] == 1 {
      assert TicketOk(s, t);
      var w := s.takers[t];
      assert WorkerOk(s, w);
      if Holds(s.workers[w], t) {
        if s.owner.Some? {
          var a := OwnerCanStep(s);
          assert false;
        }
        assert IsWork(WorkerStep(w, 0)) && Enabled(s, WorkerStep(w, 0));
        assert false;
      }
    }
  }

  // ---------- The drain loop of stop() ends ----------

  /** While stop() polls the queue, no worker leaves and none is created. */
  lemma {:induction false} DrainKeepsWorkers(s: State, run: seq<Action>)
    requires Inv(s) && s.control.CDrain? && Legal(s, run) && Exec(s, run).control.CDrain?
    ensures Inv(Exec(s, run)) && Exec(s, run).isRunning == s.isRunning && Exec(s, run).queSize == s.queSize
    ensures Exec(s, run).flag
    decreases |run|
  {
    if run == [] {
    } else {
      StepInv(s, run[0]);
      DrainStep(s, run[0]);
      if Do(s, run[0]).control.CDrain? {
        DrainKeepsWorkers(Do(s, run[0]), run[1..]);
      } else {
        HistoryGrows(Do(s, run[0]), run[1..]);
        assert false;
      }
    }
  }

  lemma DrainStep(s: State, a: Action)
    requires Enabled(s, a) && s.control.CDrain?
    ensures Do(s, a).isRunning == s.isRunning && Do(s, a).queSize == s.queSize
    ensures Do(s, a).control.CDrain? || PastDrain(Do(s, a))
  {
    if !a.ControlStep? {
      OthersKeepControl(s, a);
    }
  }

  lemma {:induction false} ReachableRun(s: State, run: seq<Action>)
    requires Reachable(s) && Legal(s, run)
    ensures Reachable(Exec(s, run))
    decreases |run|
  {
    if run == [] {
    } else {
      ReachableStep(s, run[0]);
      ReachableRun(Do(s, run[0]), run[1..]);
    }
  }

  /**
   The drain loop ends once the callers stop calling.  However often stop() polls, producers and workers make at most
   Pending(s) steps, plus what new calls and spurious wakeups add; while a task is left one of them can step; and after
   that many steps the queue is empty, so the next test of stop() succeeds.
   */
  lemma DrainLoopEnds(s: State, run: seq<Action>)
    requires Reachable(s) && s.control.CDrain? && s.queSize >= 1 && s.isRunning != {}
    requires Legal(s, run) && Exec(s, run).control.CDrain?
    ensures var e := Exec(s, run);
            && Work(run) <= Pending(s) + Input(run)
            && (!Empty(e) ==> exists a :: IsWork(a) && Enabled(e, a))
            && (Work(run) == Pending(s) + Input(run) ==> Empty(e) && Do(e, ControlStep(true)).control.CExit?)
  {
    var e := Exec(s, run);
    ReachableInv(s);
    DrainKeepsWorkers(s, run);
    ReachableRun(s, run);
    WorkIsBounded(s, run);
    if !Empty(e) {
      var w: nat :| w in e.isRunning;
      assert WorkerOk(e, w);
      assert !AllLeft(e);
      NoDeadlock(e);
      var a :| IsWork(a) && Enabled(e, a);
      if Pending(e) == 0 {
        StepPending(e, a);
        assert false;
      }
    }
  }

}
