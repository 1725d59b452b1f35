/**
 What holds in every state that the task queue and the thread pool can reach, and what stop() guarantees when it
 returns.
 */
module PoolSafety {
  import opened Options
  import opened PoolModel
  import opened PoolInvariant

  // ---------- Runs ----------

  lemma {:induction false} RunInv(s: State, run: seq<Action>)
    requires Inv(s) && Legal(s, run)
    ensures Inv(Exec(s, run))
    decreases |run|
  {
    if run == [] {
    } else {
      StepInv(s, run[0]);
      RunInv(Do(s, run[0]), run[1..]);
    }
  }

  lemma ReachableInv(s: State)
    requires Reachable(s)
    ensures Inv(s)
  {
    var threadNum, queSize, producerNum, run :|
      Legal(Init(threadNum, queSize, producerNum), run) && Exec(Init(threadNum, queSize, producerNum), run) == s;
    InitInv(threadNum, queSize, producerNum);
    RunInv(Init(threadNum, queSize, producerNum), run);
  }

  lemma {:induction false} ExecAppend(s: State, run: seq<Action>, a: Action)
    requires Legal(s, run) && Enabled(Exec(s, run), a)
    ensures Legal(s, run + [a]) && Exec(s, run + [a]) == Do(Exec(s, run), a)
    decreases |run|
  {
    if run == [] {
      assert run + [a] == [a];
    } else {
      ExecAppend(Do(s, run[0]), run[1..], a);
      assert (run + [a])[1..] == run[1..] + [a];
    }
  }

  lemma ReachableStep(s: State, a: Action)
    requires Reachable(s) && Enabled(s, a)
    ensures Reachable(Do(s, a))
  {
    var threadNum, queSize, producerNum, run :|
      Legal(Init(threadNum, queSize, producerNum), run) && Exec(Init(threadNum, queSize, producerNum), run) == s;
    ExecAppend(Init(threadNum, queSize, producerNum), run, a);
    assert Legal(Init(threadNum, queSize, producerNum), run + [a]);
  }

  // ---------- Safety of the queue ----------

  /** The queue is a bounded FIFO over every interleaving, and pop() never takes the front of an empty queue. */
  lemma BoundedFifo(s: State)
    requires Reachable(s)
    ensures s.popped + s.que == s.pushed
    ensures |s.que| <= s.queSize
    ensures forall w: nat | w < |s.workers| && s.workers[w].WTake? :: s.que != []
  {
    ReachableInv(s);
    forall w: nat | w < |s.workers| && s.workers[w].WTake? ensures s.que != [] {
      assert WorkerOk(s, w);
    }
  }

  /** At most one thread is between lock and unlock. */
  lemma MutualExclusion(s: State, a: ThreadId, b: ThreadId)
    requires Reachable(s)
    requires match a case Producer(p) => p < |s.producers| && ProducerHolds(s.producers[p])
                     case Worker(w) => w < |s.workers| && WorkerHolds(s.workers[w])
    requires match b case Producer(p) => p < |s.producers| && ProducerHolds(s.producers[p])
                     case Worker(w) => w < |s.workers| && WorkerHolds(s.workers[w])
    ensures a == b
  {
    ReachableInv(s);
    match a { case Producer(p) => assert ProducerOk(s, p); case Worker(w) => assert WorkerOk(s, w); }
    match b { case Producer(p) => assert ProducerOk(s, p); case Worker(w) => assert WorkerOk(s, w); }
  }

  ghost function WokenWorkers(s: State): set<nat> {
    set w: nat | w < |s.workers| && s.workers[w].WWoken?
  }

  ghost function WokenProducers(s: State): set<nat> {
    set p: nat | p < |s.producers| && s.producers[p].PWoken?
  }

  /**
   No wakeup is lost: with the mutex free and wakeup() not yet called, a blocked worker means that every queued
   task is matched by a worker that is already awake; with the mutex free, a blocked producer means the same for
   every free slot.
   */
  lemma NoLostWakeup(s: State)
    requires Reachable(s) && s.owner == None
    ensures s.flag && (exists w: nat :: w < |s.workers| && s.workers[w].WWaiting?) ==>
              |s.que| <= |WokenWorkers(s)|
    ensures (exists p: nat :: p < |s.producers| && s.producers[p].PWaiting?) ==>
              s.queSize - |s.que| <= |WokenProducers(s)|
  {
    ReachableInv(s);
    forall w: nat ensures w in s.notEmptyWoken <==> w in WokenWorkers(s) {
      if w < |s.workers| { assert WorkerOk(s, w); }
    }
    forall p: nat ensures p in s.notFullWoken <==> p in WokenProducers(s) {
      if p < |s.producers| { assert ProducerOk(s, p); }
    }
    assert WokenWorkers(s) == s.notEmptyWoken;
    assert WokenProducers(s) == s.notFullWoken;
    if w: nat :| w < |s.workers| && s.workers[w].WWaiting? { assert WorkerOk(s, w) && w in s.notEmpty; }
    if p: nat :| p < |s.producers| && s.producers[p].PWaiting? { assert ProducerOk(s, p) && p in s.notFull; }
  }

  /**
   Every pushed task is queued, held by exactly one worker, or has returned; it was called at most once, and the
   worker holds the very callback that was pushed.
   */
  lemma TasksAreSplit(s: State, t: nat)
    requires Reachable(s) && t < |s.pushed|
    ensures |s.popped| == |s.calls| == |s.completed| && |s.popped| <= |s.pushed|
    ensures t >= |s.popped| ==>
              && t - |s.popped| < |s.que| && s.que[t - |s.popped|] == s.pushed[t]
              && forall w: nat | w < |s.workers| :: !Holds(s.workers[w], t)
    ensures t < |s.popped| ==>
              && s.calls[t] <= 1 && s.completed[t] <= s.calls[t]
              && (s.completed[t] == 1 <==> forall w: nat | w < |s.workers| :: !Holds(s.workers[w], t))
              && (forall v: nat, w: nat | v < |s.workers| && w < |s.workers| ::
                    Holds(s.workers[v], t) && Holds(s.workers[w], t) ==> v == w)
              && (forall w: nat | w < |s.workers| ::
                    Holds(s.workers[w], t) ==> Held(s.workers[w]).cb == s.pushed[t])
  {
    ReachableInv(s);
    forall w: nat | w < |s.workers| && Holds(s.workers[w], t)
      ensures t < |s.popped| && s.takers[t] == w && Held(s.workers[w]).cb == s.pushed[t]
    {
      assert WorkerOk(s, w);
    }
    if t < |s.popped| {
      assert TicketOk(s, t);
    }
  }

  // ---------- Shutdown ----------

  predicate PastDrain(s: State) {
    s.control.CExit? || s.control.CFlag? || s.control.CBroadcast? || s.control.CJoin? || s.control.CStopped?
  }

  /** Histories only grow, and the drain test of stop() is not repeated once it has succeeded. */
  lemma {:induction false} HistoryGrows(s: State, run: seq<Action>)
    requires Legal(s, run)
    ensures s.pushed <= Exec(s, run).pushed
    ensures PastDrain(s) ==> PastDrain(Exec(s, run)) && Exec(s, run).cut == s.cut
    decreases |run|
  {
    if run == [] {
    } else {
      StepHistory(s, run[0]);
      HistoryGrows(Do(s, run[0]), run[1..]);
    }
  }

  lemma WorkerHistory(s: State, w: nat, chosen: nat)
    requires WorkerEnabled(s, w, chosen)
    ensures var s' := WorkerDo(s, w, chosen); s'.pushed == s.pushed && s'.control == s.control && s'.cut == s.cut
  {}

  lemma ProducerHistory(s: State, p: nat, chosen: nat)
    requires ProducerEnabled(s, p, chosen)
    ensures var s' := ProducerDo(s, p, chosen); s.pushed <= s'.pushed && s'.control == s.control && s'.cut == s.cut
  {}

  /** What only the control thread changes. */
  predicate SameControl(s: State, s': State) {
    && s'.control == s.control && s'.isRunning == s.isRunning && s'.queSize == s.queSize && s'.flag == s.flag
    && |s'.workers| == |s.workers| && |s'.producers| == |s.producers|
  }

  lemma ProducerKeepsControl(s: State, p: nat, chosen: nat)
    requires ProducerEnabled(s, p, chosen)
    ensures SameControl(s, ProducerDo(s, p, chosen))
  {}

  lemma WorkerKeepsControl(s: State, w: nat, chosen: nat)
    requires WorkerEnabled(s, w, chosen)
    ensures SameControl(s, WorkerDo(s, w, chosen))
  {}

  lemma OthersKeepControl(s: State, a: Action)
    requires Enabled(s, a) && !a.ControlStep?
    ensures SameControl(s, Do(s, a))
  {
    match a
    case ProducerStep(p, chosen) => ProducerKeepsControl(s, p, chosen);
    case WorkerStep(w, chosen) => WorkerKeepsControl(s, w, chosen);
    case _ =>
  }

  lemma StepHistory(s: State, a: Action)
    requires Enabled(s, a)
    ensures s.pushed <= Do(s, a).pushed
    ensures PastDrain(s) ==> PastDrain(Do(s, a)) && Do(s, a).cut == s.cut
  {
    match a
    case ProducerStep(p, chosen) => ProducerHistory(s, p, chosen);
    case WorkerStep(w, chosen) => WorkerHistory(s, w, chosen);
    case _ =>
  }

  /** When stop() has returned, every popped task has been called, and has returned, exactly once. */
  lemma StoppedMeansDone(s: State, t: nat)
    requires Inv(s) && s.control.CStopped? && t < |s.popped|
    ensures s.calls[t] == 1 && s.completed[t] == 1
  {
    assert TicketOk(s, t);
    assert WorkerOk(s, s.takers[t]);
  }

  /**
   Let stop() find the queue empty in state s and return at the end of the run.  Then every task pushed before that
   test has been called and has returned exactly once, and so has every other task that was popped; what is left
   in the queue was pushed after the test.
   */
  lemma ShutdownIsExactlyOnce(s: State, run: seq<Action>)
    requires Reachable(s) && s.control.CDrain? && Empty(s)
    requires Legal(ControlDo(s, true), run) && Exec(ControlDo(s, true), run).control.CStopped?
    ensures var e := Exec(ControlDo(s, true), run);
            && |s.pushed| <= |e.popped| == |e.calls| == |e.completed|
            && s.pushed <= e.pushed
            && (forall t: nat | t < |e.popped| :: e.calls[t] == 1 && e.completed[t] == 1)
            && e.popped + e.que == e.pushed
            && (e.pushed == s.pushed ==> e.que == [])
  {
    var s1 := ControlDo(s, true);
    var e := Exec(s1, run);
    ReachableStep(s, ControlStep(true));
    ReachableInv(s1);
    RunInv(s1, run);
    HistoryGrows(s1, run);
    assert e.cut == |s.pushed|;
    forall t: nat | t < |e.popped| ensures e.calls[t] == 1 && e.completed[t] == 1 {
      StoppedMeansDone(e, t);
    }
  }

  /** stop() has returned, and every worker has left doTask. */
  ghost predicate Retired(s: State) {
    && Inv(s) && s.control.CStopped?
    && forall w: nat | w < |s.workers| :: s.workers[w].WNotStarted? || s.workers[w].WDone?
  }

  lemma StoppedIsRetired(s: State)
    requires Reachable(s) && s.control.CStopped?
    ensures Retired(s)
  {
    ReachableInv(s);
    forall w: nat | w < |s.workers| ensures s.workers[w].WNotStarted? || s.workers[w].WDone? {
      assert WorkerOk(s, w);
    }
  }

  lemma RetiredNobodyBlocked(s: State)
    requires Retired(s)
    ensures s.notEmpty == {}
  {
    forall w: nat ensures w !in s.notEmpty {
      if w < |s.workers| { assert WorkerOk(s, w); }
    }
  }

  lemma RetiredKeeps(s: State, a: Action)
    requires Enabled(s, a) && s.notEmpty == {} && s.control.CStopped?
    requires forall w: nat | w < |s.workers| :: s.workers[w].WNotStarted? || s.workers[w].WDone?
    ensures var s' := Do(s, a);
            && s'.workers == s.workers && s'.control == s.control
            && s'.popped == s.popped && s'.calls == s.calls && s.que <= s'.que && s'.queSize == s.queSize
  {
    match a
    case WorkerStep(w, chosen) => assert false;
    case _ =>
  }

  lemma RetiredStep(s: State, a: Action)
    requires Retired(s) && Enabled(s, a)
    ensures var s' := Do(s, a); Retired(s') && s'.popped == s.popped && s'.calls == s.calls && s.que <= s'.que
    ensures Do(s, a).queSize == s.queSize
  {
    StepInv(s, a);
    RetiredNobodyBlocked(s);
    RetiredKeeps(s, a);
  }

  lemma {:induction false} RetiredRun(s: State, run: seq<Action>)
    requires Retired(s) && Legal(s, run)
    ensures var e := Exec(s, run);
            Retired(e) && e.popped == s.popped && e.calls == s.calls && s.que <= e.que && e.queSize == s.queSize
    decreases |run|
  {
    if run == [] {
    } else {
      RetiredStep(s, run[0]);
      RetiredRun(Do(s, run[0]), run[1..]);
    }
  }

  /**
   After stop() has returned no callback is called any more: what is in the queue stays in it, and if the queue is
   full, a producer that is still inside addTask never gets to push.
   */
  lemma NothingRunsAfterStop(s: State, run: seq<Action>)
    requires Reachable(s) && s.control.CStopped? && Legal(s, run)
    ensures var e := Exec(s, run);
            e.popped == s.popped && e.calls == s.calls && s.que <= e.que && (Full(s) ==> e.pushed == s.pushed)
  {
    StoppedIsRetired(s);
    RetiredRun(s, run);
    assert QueueOk(Exec(s, run));
  }

}
