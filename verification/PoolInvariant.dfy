/**
 What every interleaving keeps: mutual exclusion, FIFO order and capacity, no lost wakeup on either condition
 variable, and each callback held by at most one worker and called at most once.

 The invariant is stated thread by thread and ticket by ticket, so that each proof below looks at one step and at
 one other thread.
 */
module PoolInvariant {
  import opened Options
  import opened PoolModel

  predicate ProducerHolds(pc: ProducerPc) {
    pc.PTest? || pc.PSleep? || pc.PPush? || pc.PNotify? || pc.PUnlock?
  }

  predicate WorkerHolds(pc: WorkerPc) {
    pc.WTest? || pc.WSleep? || pc.WFlag? || pc.WTake? || pc.WNotify? || pc.WUnlock?
  }

  /** The popped callback a worker is responsible for. */
  function Held(pc: WorkerPc): Got {
    match pc
    case WNotify(cb, t) => Item(cb, t)
    case WUnlock(got) => got
    case WGot(got) => got
    case WRun(cb, t) => Item(cb, t)
    case _ => Nothing
  }

  predicate Holds(pc: WorkerPc, t: nat) {
    Held(pc).Item? && Held(pc).ticket == t
  }

  predicate Runs(pc: WorkerPc, t: nat) {
    pc.WRun? && pc.ticket == t
  }

  predicate ProducerOk(s: State, p: nat)
    requires p < |s.producers|
  {
    var pc := s.producers[p];
    && (ProducerHolds(pc) <==> s.owner == Some(Producer(p)))
    && (p in s.notFull <==> pc.PWaiting?)
    && (p in s.notFullWoken <==> pc.PWoken?)
    && (pc.PPush? ==> |s.que| < s.queSize)
    && (pc.PSleep? ==> |s.que| == s.queSize)
  }

  predicate WorkerOk(s: State, w: nat)
    requires w < |s.workers|
  {
    var pc := s.workers[w];
    && (WorkerHolds(pc) <==> s.owner == Some(Worker(w)))
    && (w in s.notEmpty <==> pc.WWaiting?)
    && (w in s.notEmptyWoken <==> pc.WWoken?)
    && (pc.WTake? ==> s.que != [])
    && (pc.WFlag? && s.flag ==> s.que != [])
    && (pc.WSleep? ==> s.que == [])
    && (pc.WDone? ==> s.isExit)
    && (w in s.isRunning ==> !pc.WNotStarted?)
    && (w !in s.isRunning ==> pc.WNotStarted? || pc.WDone?)
    && (Held(pc).Item? ==>
          var t := Held(pc).ticket;
          t < |s.takers| == |s.popped| && s.takers[t] == w && s.popped[t] == Held(pc).cb)
    && (s.control.CStart? && s.control.next <= w ==> pc.WNotStarted?)
    && (s.control.CJoin? && w < s.control.next ==> w !in s.isRunning)
    && (s.control.CStopped? ==> w !in s.isRunning)
  }

  /** Ticket t is in the hands of the worker that popped it, or its callback has returned exactly once. */
  predicate TicketOk(s: State, t: nat)
    requires t < |s.takers| && |s.takers| == |s.calls| == |s.completed|
  {
    && s.takers[t] < |s.workers|
    && var pc := s.workers[s.takers[t]];
    && s.completed[t] == (if Holds(pc, t) then 0 else 1)
    && s.calls[t] == s.completed[t] + (if Runs(pc, t) then 1 else 0)
  }

  /** 1 while the owner of the mutex is about to take an element, or is about to signal _notEmpty. */
  function EmptyCredit(s: State): nat {
    match s.owner
    case Some(Worker(w)) =>
      if w < |s.workers| && (s.workers[w].WTest? || s.workers[w].WFlag? || s.workers[w].WTake?) then 1 else 0
    case Some(Producer(p)) => if p < |s.producers| && s.producers[p].PNotify? then 1 else 0
    case None => 0
  }

  /** 1 while the owner of the mutex is about to fill a slot, or is about to signal _notFull. */
  function FullCredit(s: State): nat {
    match s.owner
    case Some(Producer(p)) =>
      if p < |s.producers| && (s.producers[p].PTest? || s.producers[p].PPush?) then 1 else 0
    case Some(Worker(w)) => if w < |s.workers| && s.workers[w].WNotify? then 1 else 0
    case None => 0
  }

  predicate WakeOk(s: State) {
    && (s.flag && s.notEmpty != {} ==> |s.que| <= |s.notEmptyWoken| + EmptyCredit(s))
    && (s.notFull != {} ==> s.queSize - |s.que| <= |s.notFullWoken| + FullCredit(s))
  }

  predicate QueueOk(s: State) {
    && |s.que| <= s.queSize
    && s.popped + s.que == s.pushed && |s.pushers| == |s.pushed|
    && |s.takers| == |s.calls| == |s.completed| == |s.popped|
  }

  predicate ControlOk(s: State) {
    && (s.isExit <==> s.control.CFlag? || s.control.CBroadcast? || s.control.CJoin? || s.control.CStopped?)
    && (s.flag <==> !(s.control.CBroadcast? || s.control.CJoin? || s.control.CStopped?))
    && (s.control.CExit? || s.isExit ==> s.cut <= |s.popped|)
  }

  /** Only threads that exist own the mutex or are blocked. */
  ghost predicate RangeOk(s: State) {
    && (s.owner.Some? ==> match s.owner.value
                          case Producer(p) => p < |s.producers|
                          case Worker(w) => w < |s.workers|)
    && (forall p: nat | p in s.notFull :: p < |s.producers|)
    && (forall p: nat | p in s.notFullWoken :: p < |s.producers|)
    && (forall w: nat | w in s.notEmpty :: w < |s.workers|)
    && (forall w: nat | w in s.notEmptyWoken :: w < |s.workers|)
    && (forall w: nat | w in s.isRunning :: w < |s.workers|)
  }

  ghost predicate Inv(s: State) {
    && QueueOk(s) && ControlOk(s) && RangeOk(s) && WakeOk(s)
    && (forall p: nat | p < |s.producers| :: ProducerOk(s, p))
    && (forall w: nat | w < |s.workers| :: WorkerOk(s, w))
    && (forall t: nat | t < |s.takers| :: TicketOk(s, t))
  }

  lemma InitInv(threadNum: nat, queSize: nat, producerNum: nat)
    ensures Inv(Init(threadNum, queSize, producerNum))
  {}

  // ---------- Steps of a producer ----------

  /** What a step of producer p needs to know: p itself and the worker a signal would wake. */
  ghost predicate ProducerStepPre(s: State, p: nat, chosen: nat) {
    && ProducerEnabled(s, p, chosen) && QueueOk(s) && ProducerOk(s, p)
    && (chosen in s.notEmpty ==> chosen < |s.workers| && WorkerOk(s, chosen))
  }

  lemma PushWaitProducer(s: State, p: nat, chosen: nat, q: nat)
    requires ProducerStepPre(s, p, chosen) && InPushWait(s.producers[p])
    requires q < |s.producers| && ProducerOk(s, q)
    ensures ProducerOk(PushWait(s, p), q)
  {}

  lemma PushWaitWorker(s: State, p: nat, chosen: nat, w: nat)
    requires ProducerStepPre(s, p, chosen) && InPushWait(s.producers[p])
    requires w < |s.workers| && WorkerOk(s, w)
    ensures WorkerOk(PushWait(s, p), w)
  {}

  lemma PushWaitTicket(s: State, p: nat, chosen: nat, t: nat)
    requires ProducerStepPre(s, p, chosen) && InPushWait(s.producers[p])
    requires t < |s.takers| && TicketOk(s, t)
    ensures TicketOk(PushWait(s, p), t)
  {}

  lemma PushWaitShared(s: State, p: nat, chosen: nat)
    requires ProducerStepPre(s, p, chosen) && InPushWait(s.producers[p])
    requires ControlOk(s) && RangeOk(s)
    ensures var s' := PushWait(s, p); QueueOk(s') && ControlOk(s') && RangeOk(s')
  {}

  lemma BlockWake(s: State, p: nat, chosen: nat)
    requires ProducerStepPre(s, p, chosen) && (s.producers[p].PSleep? || s.producers[p].PWoken?)
    requires WakeOk(s)
    ensures WakeOk(PushWait(s, p))
  {}

  lemma PushWaitWake(s: State, p: nat, chosen: nat)
    requires ProducerStepPre(s, p, chosen) && InPushWait(s.producers[p])
    requires WakeOk(s)
    ensures WakeOk(PushWait(s, p))
  {
    if s.producers[p].PSleep? || s.producers[p].PWoken? {
      BlockWake(s, p, chosen);
    }
  }

  lemma PushPutProducer(s: State, p: nat, chosen: nat, q: nat)
    requires ProducerStepPre(s, p, chosen) && !InPushWait(s.producers[p])
    requires q < |s.producers| && ProducerOk(s, q)
    ensures ProducerOk(PushPut(s, p, chosen), q)
  {}

  lemma PutWorker(s: State, p: nat, chosen: nat, w: nat)
    requires ProducerStepPre(s, p, chosen) && s.producers[p].PPush?
    requires w < |s.workers| && WorkerOk(s, w)
    ensures WorkerOk(PushPut(s, p, chosen), w)
  {}

  lemma NotifyWorker(s: State, p: nat, chosen: nat, w: nat)
    requires ProducerStepPre(s, p, chosen) && s.producers[p].PNotify?
    requires w < |s.workers| && WorkerOk(s, w)
    ensures WorkerOk(PushPut(s, p, chosen), w)
  {}

  lemma PushPutWorker(s: State, p: nat, chosen: nat, w: nat)
    requires ProducerStepPre(s, p, chosen) && !InPushWait(s.producers[p])
    requires w < |s.workers| && WorkerOk(s, w)
    ensures WorkerOk(PushPut(s, p, chosen), w)
  {
    match s.producers[p]
    case PPush(_) => PutWorker(s, p, chosen, w);
    case PNotify => NotifyWorker(s, p, chosen, w);
    case _ =>
  }

  lemma PushPutTicket(s: State, p: nat, chosen: nat, t: nat)
    requires ProducerStepPre(s, p, chosen) && !InPushWait(s.producers[p])
    requires t < |s.takers| && TicketOk(s, t)
    ensures TicketOk(PushPut(s, p, chosen), t)
  {}

  lemma PushPutQueue(s: State, p: nat, chosen: nat)
    requires ProducerStepPre(s, p, chosen) && !InPushWait(s.producers[p])
    ensures QueueOk(PushPut(s, p, chosen))
  {}

  lemma PushPutShared(s: State, p: nat, chosen: nat)
    requires ProducerStepPre(s, p, chosen) && !InPushWait(s.producers[p])
    requires ControlOk(s) && RangeOk(s)
    ensures ControlOk(PushPut(s, p, chosen)) && RangeOk(PushPut(s, p, chosen))
  {}

  lemma PushPutWake(s: State, p: nat, chosen: nat)
    requires ProducerStepPre(s, p, chosen) && !InPushWait(s.producers[p])
    requires WakeOk(s)
    ensures WakeOk(PushPut(s, p, chosen))
  {}

  // ---------- Steps of a worker ----------

  ghost predicate WorkerStepPre(s: State, w: nat, chosen: nat) {
    && WorkerEnabled(s, w, chosen) && QueueOk(s) && ControlOk(s) && WorkerOk(s, w)
    && (chosen in s.notFull ==> chosen < |s.producers| && ProducerOk(s, chosen))
  }

  lemma PopWaitProducer(s: State, w: nat, chosen: nat, p: nat)
    requires WorkerStepPre(s, w, chosen) && InPopWait(s.workers[w])
    requires p < |s.producers| && ProducerOk(s, p)
    ensures ProducerOk(PopWait(s, w), p)
  {}

  lemma PopWaitWorker(s: State, w: nat, chosen: nat, v: nat)
    requires WorkerStepPre(s, w, chosen) && InPopWait(s.workers[w])
    requires v < |s.workers| && WorkerOk(s, v)
    ensures WorkerOk(PopWait(s, w), v)
  {}

  lemma PopWaitTicket(s: State, w: nat, chosen: nat, t: nat)
    requires WorkerStepPre(s, w, chosen) && InPopWait(s.workers[w])
    requires t < |PopWait(s, w).takers|
    requires t < |s.takers| ==> TicketOk(s, t)
    ensures |PopWait(s, w).takers| == |PopWait(s, w).calls| == |PopWait(s, w).completed|
    ensures TicketOk(PopWait(s, w), t)
  {}

  lemma PopWaitShared(s: State, w: nat, chosen: nat)
    requires WorkerStepPre(s, w, chosen) && InPopWait(s.workers[w])
    requires RangeOk(s)
    ensures var s' := PopWait(s, w); QueueOk(s') && ControlOk(s') && RangeOk(s')
  {}

  lemma SleepWake(s: State, w: nat, chosen: nat)
    requires WorkerStepPre(s, w, chosen) && (s.workers[w].WSleep? || s.workers[w].WWoken?)
    requires WakeOk(s)
    ensures WakeOk(PopWait(s, w))
  {}

  lemma TestWake(s: State, w: nat, chosen: nat)
    requires WorkerStepPre(s, w, chosen) && InPopWait(s.workers[w])
    requires !s.workers[w].WSleep? && !s.workers[w].WWoken?
    requires WakeOk(s)
    ensures WakeOk(PopWait(s, w))
  {}

  lemma PopWaitWake(s: State, w: nat, chosen: nat)
    requires WorkerStepPre(s, w, chosen) && InPopWait(s.workers[w])
    requires WakeOk(s)
    ensures WakeOk(PopWait(s, w))
  {
    if s.workers[w].WSleep? || s.workers[w].WWoken? {
      SleepWake(s, w, chosen);
    } else {
      TestWake(s, w, chosen);
    }
  }

  lemma PopTakeProducer(s: State, w: nat, chosen: nat, p: nat)
    requires WorkerStepPre(s, w, chosen) && !InPopWait(s.workers[w]) && !InTaskLoop(s.workers[w])
    requires p < |s.producers| && ProducerOk(s, p)
    ensures ProducerOk(PopTake(s, w, chosen), p)
  {}

  lemma TakeSelf(s: State, w: nat, chosen: nat)
    requires WorkerStepPre(s, w, chosen) && s.workers[w].WTake?
    ensures WorkerOk(PopTake(s, w, chosen), w)
  {}

  lemma ReleaseSelf(s: State, w: nat, chosen: nat)
    requires WorkerStepPre(s, w, chosen) && (s.workers[w].WNotify? || s.workers[w].WUnlock?)
    ensures WorkerOk(PopTake(s, w, chosen), w)
  {}

  lemma PopTakeSelf(s: State, w: nat, chosen: nat)
    requires WorkerStepPre(s, w, chosen) && !InPopWait(s.workers[w]) && !InTaskLoop(s.workers[w])
    ensures WorkerOk(PopTake(s, w, chosen), w)
  {
    if s.workers[w].WTake? {
      TakeSelf(s, w, chosen);
    } else {
      ReleaseSelf(s, w, chosen);
    }
  }

  lemma TakeOther(s: State, w: nat, chosen: nat, v: nat)
    requires WorkerStepPre(s, w, chosen) && s.workers[w].WTake?
    requires v != w && v < |s.workers| && WorkerOk(s, v)
    ensures WorkerOk(PopTake(s, w, chosen), v)
  {}

  lemma ReleaseOther(s: State, w: nat, chosen: nat, v: nat)
    requires WorkerStepPre(s, w, chosen) && (s.workers[w].WNotify? || s.workers[w].WUnlock?)
    requires v != w && v < |s.workers| && WorkerOk(s, v)
    ensures WorkerOk(PopTake(s, w, chosen), v)
  {}

  lemma PopTakeOther(s: State, w: nat, chosen: nat, v: nat)
    requires WorkerStepPre(s, w, chosen) && !InPopWait(s.workers[w]) && !InTaskLoop(s.workers[w])
    requires v != w && v < |s.workers| && WorkerOk(s, v)
    ensures WorkerOk(PopTake(s, w, chosen), v)
  {
    if s.workers[w].WTake? {
      TakeOther(s, w, chosen, v);
    } else {
      ReleaseOther(s, w, chosen, v);
    }
  }

  lemma TakeTicket(s: State, w: nat, chosen: nat, t: nat)
    requires WorkerStepPre(s, w, chosen) && s.workers[w].WTake?
    requires t < |PopTake(s, w, chosen).takers|
    requires t < |s.takers| ==> TicketOk(s, t)
    ensures |PopTake(s, w, chosen).takers| == |PopTake(s, w, chosen).calls| == |PopTake(s, w, chosen).completed|
    ensures TicketOk(PopTake(s, w, chosen), t)
  {}

  lemma ReleaseTicket(s: State, w: nat, chosen: nat, t: nat)
    requires WorkerStepPre(s, w, chosen) && (s.workers[w].WNotify? || s.workers[w].WUnlock?)
    requires t < |PopTake(s, w, chosen).takers|
    requires t < |s.takers| ==> TicketOk(s, t)
    ensures |PopTake(s, w, chosen).takers| == |PopTake(s, w, chosen).calls| == |PopTake(s, w, chosen).completed|
    ensures TicketOk(PopTake(s, w, chosen), t)
  {}

  lemma PopTakeTicket(s: State, w: nat, chosen: nat, t: nat)
    requires WorkerStepPre(s, w, chosen) && !InPopWait(s.workers[w]) && !InTaskLoop(s.workers[w])
    requires t < |PopTake(s, w, chosen).takers|
    requires t < |s.takers| ==> TicketOk(s, t)
    ensures |PopTake(s, w, chosen).takers| == |PopTake(s, w, chosen).calls| == |PopTake(s, w, chosen).completed|
    ensures TicketOk(PopTake(s, w, chosen), t)
  {
    if s.workers[w].WTake? {
      TakeTicket(s, w, chosen, t);
    } else {
      ReleaseTicket(s, w, chosen, t);
    }
  }

  lemma PopTakeQueue(s: State, w: nat, chosen: nat)
    requires WorkerStepPre(s, w, chosen) && !InPopWait(s.workers[w]) && !InTaskLoop(s.workers[w])
    ensures QueueOk(PopTake(s, w, chosen))
  {}

  lemma TakeShared(s: State, w: nat, chosen: nat)
    requires WorkerStepPre(s, w, chosen) && s.workers[w].WTake?
    requires RangeOk(s)
    ensures ControlOk(PopTake(s, w, chosen)) && RangeOk(PopTake(s, w, chosen))
  {}

  lemma ReleaseShared(s: State, w: nat, chosen: nat)
    requires WorkerStepPre(s, w, chosen) && (s.workers[w].WNotify? || s.workers[w].WUnlock?)
    requires RangeOk(s)
    ensures ControlOk(PopTake(s, w, chosen)) && RangeOk(PopTake(s, w, chosen))
  {}

  lemma PopTakeShared(s: State, w: nat, chosen: nat)
    requires WorkerStepPre(s, w, chosen) && !InPopWait(s.workers[w]) && !InTaskLoop(s.workers[w])
    requires RangeOk(s)
    ensures ControlOk(PopTake(s, w, chosen)) && RangeOk(PopTake(s, w, chosen))
  {
    if s.workers[w].WTake? {
      TakeShared(s, w, chosen);
    } else {
      ReleaseShared(s, w, chosen);
    }
  }

  lemma PopTakeWake(s: State, w: nat, chosen: nat)
    requires WorkerStepPre(s, w, chosen) && !InPopWait(s.workers[w]) && !InTaskLoop(s.workers[w])
    requires WakeOk(s)
    ensures WakeOk(PopTake(s, w, chosen))
  {}

  lemma TaskLoopProducer(s: State, w: nat, chosen: nat, p: nat)
    requires WorkerStepPre(s, w, chosen) && InTaskLoop(s.workers[w])
    requires p < |s.producers| && ProducerOk(s, p)
    ensures ProducerOk(TaskLoop(s, w), p)
  {}

  lemma TaskLoopSelf(s: State, w: nat, chosen: nat)
    requires WorkerStepPre(s, w, chosen) && InTaskLoop(s.workers[w])
    ensures WorkerOk(TaskLoop(s, w), w)
  {}

  lemma TaskLoopOther(s: State, w: nat, chosen: nat, v: nat)
    requires WorkerStepPre(s, w, chosen) && InTaskLoop(s.workers[w])
    requires v != w && v < |s.workers| && WorkerOk(s, v)
    ensures WorkerOk(TaskLoop(s, w), v)
  {}

  lemma TaskLoopTicket(s: State, w: nat, chosen: nat, t: nat)
    requires WorkerStepPre(s, w, chosen) && InTaskLoop(s.workers[w])
    requires t < |TaskLoop(s, w).takers|
    requires t < |s.takers| ==> TicketOk(s, t)
    ensures |TaskLoop(s, w).takers| == |TaskLoop(s, w).calls| == |TaskLoop(s, w).completed|
    ensures TicketOk(TaskLoop(s, w), t)
  {}

  lemma TaskLoopShared(s: State, w: nat, chosen: nat)
    requires WorkerStepPre(s, w, chosen) && InTaskLoop(s.workers[w])
    requires RangeOk(s)
    ensures var s' := TaskLoop(s, w); QueueOk(s') && ControlOk(s') && RangeOk(s')
  {}

  lemma TaskLoopWake(s: State, w: nat, chosen: nat)
    requires WorkerStepPre(s, w, chosen) && InTaskLoop(s.workers[w])
    requires WakeOk(s)
    ensures WakeOk(TaskLoop(s, w))
  {}

  // ---------- Steps of the control thread ----------

  lemma ControlStepThreads(s: State, ok: bool, p: nat, w: nat)
    requires ControlEnabled(s) && ControlOk(s) && QueueOk(s)
    requires s.control.CStart? && s.control.next < |s.workers| ==> WorkerOk(s, s.control.next)
    requires p < |s.producers| ==> ProducerOk(s, p)
    requires w < |s.workers| ==> WorkerOk(s, w)
    ensures p < |s.producers| ==> ProducerOk(ControlDo(s, ok), p)
    ensures w < |s.workers| ==> WorkerOk(ControlDo(s, ok), w)
  {}

  lemma ControlStepTicket(s: State, ok: bool, t: nat)
    requires ControlEnabled(s) && ControlOk(s) && QueueOk(s)
    requires s.control.CStart? && s.control.next < |s.workers| ==> WorkerOk(s, s.control.next)
    requires t < |s.takers| && TicketOk(s, t)
    ensures TicketOk(ControlDo(s, ok), t)
  {}

  lemma ControlStepShared(s: State, ok: bool)
    requires ControlEnabled(s) && QueueOk(s) && ControlOk(s) && RangeOk(s)
    ensures var s' := ControlDo(s, ok); QueueOk(s') && ControlOk(s') && RangeOk(s')
  {}

  lemma ControlStepWake(s: State, ok: bool)
    requires ControlEnabled(s) && ControlOk(s) && WakeOk(s)
    requires s.control.CStart? && s.control.next < |s.workers| ==> WorkerOk(s, s.control.next)
    ensures WakeOk(ControlDo(s, ok))
  {}

  // ---------- A new call, and spurious wakeups ----------

  lemma AddTaskThreads(s: State, p: nat, cb: Callback, q: nat, w: nat)
    requires p < |s.producers| && s.producers[p].PIdle? && ProducerOk(s, p)
    requires q < |s.producers| ==> ProducerOk(s, q)
    requires w < |s.workers| ==> WorkerOk(s, w)
    ensures var s' := s.(producers := s.producers[p := PLock(cb)]);
            (q < |s.producers| ==> ProducerOk(s', q)) && (w < |s.workers| ==> WorkerOk(s', w))
  {}

  lemma SpuriousThreads(s: State, a: Action, q: nat, w: nat)
    requires (a.SpuriousProducer? || a.SpuriousWorker?) && Enabled(s, a)
    requires q < |s.producers| ==> ProducerOk(s, q)
    requires w < |s.workers| ==> WorkerOk(s, w)
    requires a.SpuriousProducer? ==> ProducerOk(s, a.p)
    requires a.SpuriousWorker? ==> WorkerOk(s, a.w)
    ensures (q < |s.producers| ==> ProducerOk(Do(s, a), q)) && (w < |s.workers| ==> WorkerOk(Do(s, a), w))
  {}

  lemma OtherShared(s: State, a: Action)
    requires Enabled(s, a) && (a.AddTask? || a.SpuriousProducer? || a.SpuriousWorker?)
    requires a.AddTask? || a.SpuriousProducer? ==> ProducerOk(s, a.p)
    requires a.SpuriousWorker? ==> WorkerOk(s, a.w)
    requires QueueOk(s) && ControlOk(s) && RangeOk(s)
    ensures var s' := Do(s, a); QueueOk(s') && ControlOk(s') && RangeOk(s')
  {}

  lemma AddTaskWake(s: State, p: nat, cb: Callback)
    requires p < |s.producers| && s.producers[p].PIdle? && ProducerOk(s, p) && WakeOk(s)
    ensures WakeOk(s.(producers := s.producers[p := PLock(cb)]))
  {}

  lemma SpuriousProducerWake(s: State, p: nat)
    requires p < |s.producers| && s.producers[p].PWaiting? && ProducerOk(s, p) && WakeOk(s)
    ensures WakeOk(WakeProducer(s, p))
  {}

  lemma SpuriousWorkerWake(s: State, w: nat)
    requires w < |s.workers| && s.workers[w].WWaiting? && WorkerOk(s, w) && WakeOk(s)
    ensures WakeOk(WakeWorker(s, w))
  {}

  lemma OtherTicket(s: State, a: Action, t: nat)
    requires Enabled(s, a) && (a.AddTask? || a.SpuriousProducer? || a.SpuriousWorker?)
    requires QueueOk(s) && t < |s.takers| && TicketOk(s, t)
    ensures TicketOk(Do(s, a), t)
  {}

  // ---------- Every step ----------

  lemma PushInv(s: State, p: nat, chosen: nat)
    requires Inv(s) && ProducerEnabled(s, p, chosen)
    ensures Inv(ProducerDo(s, p, chosen))
  {
    var s' := ProducerDo(s, p, chosen);
    assert ProducerStepPre(s, p, chosen);
    if InPushWait(s.producers[p]) {
      PushWaitShared(s, p, chosen);
      PushWaitWake(s, p, chosen);
      forall q: nat | q < |s'.producers| ensures ProducerOk(s', q) { PushWaitProducer(s, p, chosen, q); }
      forall w: nat | w < |s'.workers| ensures WorkerOk(s', w) { PushWaitWorker(s, p, chosen, w); }
      forall t: nat | t < |s'.takers| ensures TicketOk(s', t) { PushWaitTicket(s, p, chosen, t); }
    } else {
      PushPutQueue(s, p, chosen);
      PushPutShared(s, p, chosen);
      PushPutWake(s, p, chosen);
      forall q: nat | q < |s'.producers| ensures ProducerOk(s', q) { PushPutProducer(s, p, chosen, q); }
      forall w: nat | w < |s'.workers| ensures WorkerOk(s', w) { PushPutWorker(s, p, chosen, w); }
      forall t: nat | t < |s'.takers| ensures TicketOk(s', t) { PushPutTicket(s, p, chosen, t); }
    }
  }

  lemma PopWaitInv(s: State, w: nat, chosen: nat)
    requires Inv(s) && WorkerEnabled(s, w, chosen) && InPopWait(s.workers[w])
    ensures Inv(PopWait(s, w))
  {
    var s' := PopWait(s, w);
    PopWaitShared(s, w, chosen);
    PopWaitWake(s, w, chosen);
    forall p: nat | p < |s'.producers| ensures ProducerOk(s', p) { PopWaitProducer(s, w, chosen, p); }
    forall v: nat | v < |s'.workers| ensures WorkerOk(s', v) { PopWaitWorker(s, w, chosen, v); }
    forall t: nat | t < |s'.takers| ensures TicketOk(s', t) { PopWaitTicket(s, w, chosen, t); }
  }

  lemma PopTakeInv(s: State, w: nat, chosen: nat)
    requires Inv(s) && WorkerEnabled(s, w, chosen) && !InPopWait(s.workers[w]) && !InTaskLoop(s.workers[w])
    ensures Inv(PopTake(s, w, chosen))
  {
    var s' := PopTake(s, w, chosen);
    PopTakeQueue(s, w, chosen);
    PopTakeShared(s, w, chosen);
    PopTakeWake(s, w, chosen);
    forall p: nat | p < |s'.producers| ensures ProducerOk(s', p) { PopTakeProducer(s, w, chosen, p); }
    forall v: nat | v < |s'.workers| ensures WorkerOk(s', v) {
      if v == w { PopTakeSelf(s, w, chosen); } else { PopTakeOther(s, w, chosen, v); }
    }
    forall t: nat | t < |s'.takers| ensures TicketOk(s', t) { PopTakeTicket(s, w, chosen, t); }
  }

  lemma TaskLoopInv(s: State, w: nat, chosen: nat)
    requires Inv(s) && WorkerEnabled(s, w, chosen) && InTaskLoop(s.workers[w])
    ensures Inv(TaskLoop(s, w))
  {
    var s' := TaskLoop(s, w);
    TaskLoopShared(s, w, chosen);
    TaskLoopWake(s, w, chosen);
    forall p: nat | p < |s'.producers| ensures ProducerOk(s', p) { TaskLoopProducer(s, w, chosen, p); }
    forall v: nat | v < |s'.workers| ensures WorkerOk(s', v) {
      if v == w { TaskLoopSelf(s, w, chosen); } else { TaskLoopOther(s, w, chosen, v); }
    }
    forall t: nat | t < |s'.takers| ensures TicketOk(s', t) { TaskLoopTicket(s, w, chosen, t); }
  }

  lemma ControlInv(s: State, ok: bool)
    requires Inv(s) && ControlEnabled(s)
    ensures Inv(ControlDo(s, ok))
  {
    var s' := ControlDo(s, ok);
    ControlStepShared(s, ok);
    ControlStepWake(s, ok);
    forall p: nat | p < |s'.producers| ensures ProducerOk(s', p) { ControlStepThreads(s, ok, p, |s.workers|); }
    forall w: nat | w < |s'.workers| ensures WorkerOk(s', w) { ControlStepThreads(s, ok, |s.producers|, w); }
    forall t: nat | t < |s'.takers| ensures TicketOk(s', t) { ControlStepTicket(s, ok, t); }
  }

  lemma OtherInv(s: State, a: Action)
    requires Inv(s) && Enabled(s, a) && (a.AddTask? || a.SpuriousProducer? || a.SpuriousWorker?)
    ensures Inv(Do(s, a))
  {
    var s' := Do(s, a);
    OtherShared(s, a);
    match a {
      case AddTask(p, task) => if task.Some? { AddTaskWake(s, p, task.value); }
      case SpuriousProducer(p) => SpuriousProducerWake(s, p);
      case SpuriousWorker(w) => SpuriousWorkerWake(s, w);
    }
    forall t: nat | t < |s'.takers| ensures TicketOk(s', t) { OtherTicket(s, a, t); }
    forall q: nat | q < |s'.producers| ensures ProducerOk(s', q) {
      if a.AddTask? {
        AddTaskThreads(s, a.p, if a.task.Some? then a.task.value else 0, q, |s.workers|);
      } else {
        SpuriousThreads(s, a, q, |s.workers|);
      }
    }
    forall w: nat | w < |s'.workers| ensures WorkerOk(s', w) {
      if a.AddTask? {
        AddTaskThreads(s, a.p, if a.task.Some? then a.task.value else 0, |s.producers|, w);
      } else {
        SpuriousThreads(s, a, |s.producers|, w);
      }
    }
  }

  /** One step of any thread keeps the invariant. */
  lemma StepInv(s: State, a: Action)
    requires Inv(s) && Enabled(s, a)
    ensures Inv(Do(s, a))
  {
    match a
    case ProducerStep(p, chosen) => PushInv(s, p, chosen);
    case WorkerStep(w, chosen) =>
      if InPopWait(s.workers[w]) {
        PopWaitInv(s, w, chosen);
      } else if InTaskLoop(s.workers[w]) {
        TaskLoopInv(s, w, chosen);
      } else {
        PopTakeInv(s, w, chosen);
      }
    case ControlStep(ok) => ControlInv(s, ok);
    case _ => OtherInv(s, a);
  }

}
