/** Nullable results, used for the mutex owner and for the callbacks handed to the pool. */
module Options {

  datatype Option<+T> = None | Some(value: T)

}

/**
 The task queue, the thread pool and its shutdown as one transition system.

 Any number of producer threads call ThreadPool::addTask, the worker threads run ThreadPool::doTask, and one
 control thread calls ThreadPool::start and later ThreadPool::stop.  Every thread has a program counter whose
 values are the places between two atomic actions of the code.  The mutex and the two condition variables follow
 POSIX.1-2017 (pthread_mutex_lock, pthread_cond_wait, pthread_cond_signal, pthread_cond_broadcast): waiting
 releases the mutex and blocks in one atomic action, a signal wakes one of the blocked threads if there is one, a
 woken thread has to win the mutex again, and a blocked thread may wake up spuriously at any time.

 Two accesses are made without the mutex, as in the code: wakeup() writes _flag and broadcasts, and stop() reads
 the size of the queue.
 */
module PoolModel {
  import opened Options

  /** A non-empty std::function<void()>; the empty one is None where it can occur. */
  type Callback = nat

  datatype ThreadId = Producer(p: nat) | Worker(w: nat)

  /** Where a producer is in TaskQueue::push. */
  datatype ProducerPc =
    | PIdle                    // outside addTask
    | PLock(cb: Callback)      // about to take the mutex
    | PTest(cb: Callback)      // owns the mutex, about to test full()
    | PSleep(cb: Callback)     // full() was true, about to wait on _notFull
    | PWaiting(cb: Callback)   // blocked on _notFull
    | PWoken(cb: Callback)     // woken, about to take the mutex again
    | PPush(cb: Callback)      // full() was false, about to push
    | PNotify                  // about to signal _notEmpty
    | PUnlock                  // about to release the mutex

  /** What pop() returns: the empty function, or the callback that was pushed as number `ticket`. */
  datatype Got = Nothing | Item(cb: Callback, ticket: nat)

  /** Where a worker is in doTask and in the pop() it calls. */
  datatype WorkerPc =
    | WNotStarted
    | WLoop                    // about to test _isExit
    | WLock                    // about to take the mutex
    | WTest                    // owns the mutex, about to test empty() && _flag
    | WSleep                   // the test was true, about to wait on _notEmpty
    | WWaiting                 // blocked on _notEmpty
    | WWoken                   // woken, about to take the mutex again
    | WFlag                    // left the loop, about to test _flag a second time
    | WTake                    // about to take the front of the queue
    | WNotify(cb: Callback, ticket: nat)   // about to signal _notFull
    | WUnlock(got: Got)        // about to release the mutex
    | WGot(got: Got)           // back in doTask, about to test the callback
    | WRun(cb: Callback, ticket: nat)      // inside the callback
    | WDone                    // doTask has returned

  /** Where the control thread is in start() and stop(). */
  datatype ControlPc =
    | CStart(next: nat)        // start() is about to create thread number `next`
    | CRunning                 // start() has returned
    | CDrain                   // stop() is about to test empty()
    | CExit                    // about to set _isExit
    | CFlag                    // in wakeup(), about to clear _flag
    | CBroadcast               // in wakeup(), about to broadcast _notEmpty
    | CJoin(next: nat)         // about to join thread number `next`
    | CStopped                 // stop() has returned

  datatype State = State(
    queSize: nat,
    que: seq<Callback>,
    flag: bool,
    isExit: bool,
    owner: Option<ThreadId>,       // who holds the mutex
    notFull: set<nat>,             // producers blocked on _notFull
    notFullWoken: set<nat>,        // producers woken from _notFull that do not have the mutex yet
    notEmpty: set<nat>,            // workers blocked on _notEmpty
    notEmptyWoken: set<nat>,       // workers woken from _notEmpty that do not have the mutex yet
    producers: seq<ProducerPc>,
    workers: seq<WorkerPc>,
    isRunning: set<nat>,           // workers whose Thread::_isRunning is true
    control: ControlPc,
    // histories
    pushed: seq<Callback>,         // every callback that entered the queue, in order
    pushers: seq<nat>,             // the producer that pushed each ticket
    popped: seq<Callback>,         // every callback that left the queue, in order
    takers: seq<nat>,              // the worker that popped each ticket
    calls: seq<nat>,               // how often the callback of each ticket was called
    completed: seq<nat>,             // how often it has returned
    cut: nat)                      // |pushed| when stop() last found the queue empty

  /** One atomic action, with the choices the scheduler and the kernel make. */
  datatype Action =
    | AddTask(p: nat, task: Option<Callback>)
    | ProducerStep(p: nat, chosen: nat)   // chosen: the worker a signal wakes
    | WorkerStep(w: nat, chosen: nat)     // chosen: the producer a signal wakes
    | ControlStep(ok: bool)               // ok: whether pthread_create succeeds
    | SpuriousProducer(p: nat)
    | SpuriousWorker(w: nat)

  function Init(threadNum: nat, queSize: nat, producerNum: nat): State {
    State(queSize, [], true, false, None, {}, {}, {}, {},
          seq(producerNum, i => PIdle), seq(threadNum, i => WNotStarted), {},
          CStart(0), [], [], [], [], [], [], 0)
  }

  /** A signal wakes one of the blocked threads, if there is one. */
  predicate SignalChoice(blocked: set<nat>, chosen: nat) {
    blocked == {} || chosen in blocked
  }

  predicate ProducerEnabled(s: State, p: nat, chosen: nat) {
    p < |s.producers| &&
    match s.producers[p]
    case PIdle => false
    case PWaiting(_) => false
    case PLock(_) => s.owner == None
    case PWoken(_) => s.owner == None
    case PNotify => SignalChoice(s.notEmpty, chosen) && (s.notEmpty != {} ==> chosen < |s.workers|)
    case _ => true
  }

  predicate WorkerEnabled(s: State, w: nat, chosen: nat) {
    w < |s.workers| &&
    match s.workers[w]
    case WNotStarted => false
    case WDone => false
    case WWaiting => false
    case WLock => s.owner == None
    case WWoken => s.owner == None
    case WNotify(_, _) => SignalChoice(s.notFull, chosen) && (s.notFull != {} ==> chosen < |s.producers|)
    case WTake => s.que != []      // front() and pop() of an empty std::queue have no meaning
    case _ => true
  }

  predicate ControlEnabled(s: State) {
    match s.control
    case CJoin(k) => k < |s.workers| && k in s.isRunning ==> s.workers[k] == WDone
    case CStopped => false
    case _ => true
  }

  predicate Enabled(s: State, a: Action) {
    match a
    case AddTask(p, _) => p < |s.producers| && s.producers[p] == PIdle
    case ProducerStep(p, chosen) => ProducerEnabled(s, p, chosen)
    case WorkerStep(w, chosen) => WorkerEnabled(s, w, chosen)
    case ControlStep(_) => ControlEnabled(s)
    case SpuriousProducer(p) => p < |s.producers| && s.producers[p].PWaiting?
    case SpuriousWorker(w) => w < |s.workers| && s.workers[w] == WWaiting
  }

  function Woken(pc: ProducerPc): ProducerPc {
    if pc.PWaiting? then PWoken(pc.cb) else pc
  }

  function WakeProducer(s: State, p: nat): State
    requires p < |s.producers|
  {
    s.(notFull := s.notFull - {p}, notFullWoken := s.notFullWoken + {p},
       producers := s.producers[p := Woken(s.producers[p])])
  }

  function WakeWorker(s: State, w: nat): State
    requires w < |s.workers|
  {
    s.(notEmpty := s.notEmpty - {w}, notEmptyWoken := s.notEmptyWoken + {w},
       workers := s.workers[w := WWoken])
  }

  /** pthread_cond_signal on _notFull */
  function SignalNotFull(s: State, chosen: nat): State
    requires s.notFull != {} ==> chosen < |s.producers|
  {
    if s.notFull != {} then WakeProducer(s, chosen) else s
  }

  /** pthread_cond_signal on _notEmpty */
  function SignalNotEmpty(s: State, chosen: nat): State
    requires s.notEmpty != {} ==> chosen < |s.workers|
  {
    if s.notEmpty != {} then WakeWorker(s, chosen) else s
  }

  /** pthread_cond_broadcast on _notEmpty */
  function BroadcastNotEmpty(s: State): State {
    s.(notEmpty := {}, notEmptyWoken := s.notEmptyWoken + s.notEmpty,
       workers := seq(|s.workers|, i requires 0 <= i < |s.workers| =>
         if s.workers[i] == WWaiting then WWoken else s.workers[i]))
  }

  predicate Full(s: State) { s.queSize == |s.que| }

  predicate Empty(s: State) { 0 == |s.que| }

  /** TaskQueue::push, lines 23 to 30: take the mutex and wait while the queue is full. */
  function PushWait(s: State, p: nat): State
    requires p < |s.producers|
  {
    match s.producers[p]
    case PLock(cb) => s.(owner := Some(Producer(p)), producers := s.producers[p := PTest(cb)])
    case PTest(cb) => s.(producers := s.producers[p := if Full(s) then PSleep(cb) else PPush(cb)])
    case PSleep(cb) =>
      s.(owner := None, notFull := s.notFull + {p}, producers := s.producers[p := PWaiting(cb)])
    case PWoken(cb) =>
      s.(owner := Some(Producer(p)), notFullWoken := s.notFullWoken - {p}, producers := s.producers[p := PTest(cb)])
    case _ => s
  }

  /** TaskQueue::push, lines 32 to 35: push, signal and release the mutex. */
  function PushPut(s: State, p: nat, chosen: nat): State
    requires ProducerEnabled(s, p, chosen)
  {
    match s.producers[p]
    case PPush(cb) =>
      s.(que := s.que + [cb], pushed := s.pushed + [cb], pushers := s.pushers + [p],
         producers := s.producers[p := PNotify])
    case PNotify => SignalNotEmpty(s, chosen).(producers := s.producers[p := PUnlock])
    case PUnlock => s.(owner := None, producers := s.producers[p := PIdle])
    case _ => s
  }

  predicate InPushWait(pc: ProducerPc) {
    pc.PLock? || pc.PTest? || pc.PSleep? || pc.PWoken?
  }

  function ProducerDo(s: State, p: nat, chosen: nat): State
    requires ProducerEnabled(s, p, chosen)
  {
    if InPushWait(s.producers[p]) then PushWait(s, p) else PushPut(s, p, chosen)
  }

  /**
   TaskQueue::pop, lines 40 to 47: take the mutex, wait while the queue is empty and _flag is set, test _flag again.
   */
  function PopWait(s: State, w: nat): State
    requires w < |s.workers|
  {
    match s.workers[w]
    case WLock => s.(owner := Some(Worker(w)), workers := s.workers[w := WTest])
    case WTest => s.(workers := s.workers[w := if Empty(s) && s.flag then WSleep else WFlag])
    case WSleep =>
      s.(owner := None, notEmpty := s.notEmpty + {w}, workers := s.workers[w := WWaiting])
    case WWoken =>
      s.(owner := Some(Worker(w)), notEmptyWoken := s.notEmptyWoken - {w}, workers := s.workers[w := WTest])
    case WFlag => s.(workers := s.workers[w := if s.flag then WTake else WUnlock(Nothing)])
    case _ => s
  }

  /** TaskQueue::pop, lines 49 to 60: take the front, signal and release the mutex. */
  function PopTake(s: State, w: nat, chosen: nat): State
    requires WorkerEnabled(s, w, chosen)
  {
    match s.workers[w]
    case WTake =>
      s.(que := s.que[1..], popped := s.popped + [s.que[0]],
         takers := s.takers + [w], calls := s.calls + [0], completed := s.completed + [0],
         workers := s.workers[w := WNotify(s.que[0], |s.popped|)])
    case WNotify(cb, ticket) => SignalNotFull(s, chosen).(workers := s.workers[w := WUnlock(Item(cb, ticket))])
    case WUnlock(got) => s.(owner := None, workers := s.workers[w := WGot(got)])
    case _ => s
  }

  function Bump(counts: seq<nat>, t: nat): seq<nat> {
    if t < |counts| then counts[t := counts[t] + 1] else counts
  }

  /** ThreadPool::doTask around the call of pop. */
  function TaskLoop(s: State, w: nat): State
    requires w < |s.workers|
  {
    match s.workers[w]
    case WLoop => s.(workers := s.workers[w := if s.isExit then WDone else WLock])
    case WGot(got) =>
      if got.Item? then
        s.(calls := Bump(s.calls, got.ticket), workers := s.workers[w := WRun(got.cb, got.ticket)])
      else
        s.(workers := s.workers[w := WLoop])
    case WRun(_, ticket) => s.(completed := Bump(s.completed, ticket), workers := s.workers[w := WLoop])
    case _ => s
  }

  predicate InPopWait(pc: WorkerPc) {
    pc.WLock? || pc.WTest? || pc.WSleep? || pc.WWoken? || pc.WFlag?
  }

  predicate InTaskLoop(pc: WorkerPc) {
    pc.WLoop? || pc.WGot? || pc.WRun?
  }

  function WorkerDo(s: State, w: nat, chosen: nat): State
    requires WorkerEnabled(s, w, chosen)
  {
    var pc := s.workers[w];
    if InPopWait(pc) then PopWait(s, w) else if InTaskLoop(pc) then TaskLoop(s, w) else PopTake(s, w, chosen)
  }

  /** ThreadPool::start and ThreadPool::stop, with TaskQueue::wakeup, Thread::start and Thread::stop. */
  function ControlDo(s: State, ok: bool): State
    requires ControlEnabled(s)
  {
    match s.control
    case CStart(k) =>
      if k < |s.workers| then
        if ok then
          s.(workers := s.workers[k := WLoop], isRunning := s.isRunning + {k}, control := CStart(k + 1))
        else
          s.(control := CStart(k + 1))
      else
        s.(control := CRunning)
    case CRunning => s.(control := CDrain)
    case CDrain => if Empty(s) then s.(control := CExit, cut := |s.pushed|) else s
    case CExit => s.(isExit := true, control := CFlag)
    case CFlag => s.(flag := false, control := CBroadcast)
    case CBroadcast => BroadcastNotEmpty(s).(control := CJoin(0))
    case CJoin(k) =>
      if k < |s.workers| then
        s.(isRunning := s.isRunning - {k}, control := CJoin(k + 1))
      else
        s.(control := CStopped)
    case CStopped => s
  }

  function Do(s: State, a: Action): State
    requires Enabled(s, a)
  {
    match a
    case AddTask(p, task) => if task.Some? then s.(producers := s.producers[p := PLock(task.value)]) else s
    case ProducerStep(p, chosen) => ProducerDo(s, p, chosen)
    case WorkerStep(w, chosen) => WorkerDo(s, w, chosen)
    case ControlStep(ok) => ControlDo(s, ok)
    case SpuriousProducer(p) => WakeProducer(s, p)
    case SpuriousWorker(w) => WakeWorker(s, w)
  }

  /** Every action of the run is enabled when its turn comes. */
  predicate Legal(s: State, run: seq<Action>)
    decreases |run|
  {
    run == [] || (Enabled(s, run[0]) && Legal(Do(s, run[0]), run[1..]))
  }

  /** The state after a run. */
  function Exec(s: State, run: seq<Action>): State
    requires Legal(s, run)
    decreases |run|
  {
    if run == [] then s else Exec(Do(s, run[0]), run[1..])
  }

  ghost predicate Reachable(s: State) {
    exists threadNum, queSize, producerNum, run ::
      Legal(Init(threadNum, queSize, producerNum), run) && Exec(Init(threadNum, queSize, producerNum), run) == s
  }

}
