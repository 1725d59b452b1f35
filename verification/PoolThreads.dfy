/**
 TaskQueue::push, pop and wakeup and the loops of ThreadPool in imperative form.  All methods of one object run on one
 thread while all others keep running: between two atomic actions a method pauses, and the scheduler lets others act.

 Valid() says that every turn of the schedule has been taken in the state it found: an action of another thread, or the
 next step of this one, has been made exactly if it was enabled.  So everything that has happened, to the fields as much
 as to the threads, is a run of the transition system of PoolModel, and no turn is lost.  Each method keeps Valid(), and
 says what its thread has achieved, or that the schedule has come to its end inside the call.
 */
module PoolThreads {
  import opened Options
  import opened PoolModel
  import opened PoolInvariant
  import opened PoolSafety

  /** The scheduler: another thread acts, or the thread in question gets its turn. */
  datatype Turn = Other(a: Action) | Mine(chosen: nat)

  datatype Who = Caller(p: nat) | Pooled(w: nat) | Control

  /** The task with this number was pushed by producer p, and its callback is cb. */
  predicate PushedBy(s: State, p: nat, cb: Callback, ticket: nat) {
    ticket < |s.pushed| && ticket < |s.pushers| && s.pushed[ticket] == cb && s.pushers[ticket] == p
  }

  predicate Belongs(a: Action, who: Who) {
    match a
    case AddTask(p, _) => who == Caller(p)
    case ProducerStep(p, _) => who == Caller(p)
    case WorkerStep(w, _) => who == Pooled(w)
    case ControlStep(_) => who == Control
    case _ => false
  }

  function StepOf(who: Who, chosen: nat): Action {
    match who
    case Caller(p) => ProducerStep(p, chosen)
    case Pooled(w) => WorkerStep(w, chosen)
    case Control => ControlStep(chosen != 0)
  }

  predicate Exists(who: Who, s: State) {
    match who
    case Caller(p) => p < |s.producers|
    case Pooled(w) => w < |s.workers|
    case Control => true
  }

  /** Others do not move a thread, except that they may wake it. */
  predicate Stays(who: Who, s: State, s': State)
    requires Exists(who, s)
  {
    && |s.producers| == |s'.producers| && |s.workers| == |s'.workers| && s.queSize == s'.queSize
    && match who
       case Caller(p) => s'.producers[p] == s.producers[p] || s'.producers[p] == Woken(s.producers[p])
       case Pooled(w) => s.workers[w].WNotStarted? || s'.workers[w] == s.workers[w] ||
                         (s.workers[w].WWaiting? && s'.workers[w].WWoken?)
       case Control => s'.control == s.control && s'.cut == s.cut && s'.isRunning == s.isRunning
  }

  /** Histories only grow, and the flags change once. */
  predicate Later(s: State, s': State) {
    && s.pushed <= s'.pushed && s.pushers <= s'.pushers && s.popped <= s'.popped && s.takers <= s'.takers
    && |s.calls| <= |s'.calls|
    && (s'.flag ==> s.flag) && (s.isExit ==> s'.isExit)
  }

  lemma OtherProducerStays(s: State, p: nat, chosen: nat, who: Who)
    requires ProducerEnabled(s, p, chosen) && Exists(who, s) && who != Caller(p)
    requires who.Pooled? ==> WorkerOk(s, who.w)
    ensures Stays(who, s, ProducerDo(s, p, chosen))
  {}

  lemma ProducerLater(s: State, p: nat, chosen: nat)
    requires ProducerEnabled(s, p, chosen)
    ensures Later(s, ProducerDo(s, p, chosen))
  {}

  lemma PopWaitStays(s: State, w: nat, who: Who)
    requires w < |s.workers| && Exists(who, s) && who != Pooled(w)
    ensures Stays(who, s, PopWait(s, w))
  {}

  lemma TaskLoopStays(s: State, w: nat, who: Who)
    requires w < |s.workers| && Exists(who, s) && who != Pooled(w)
    ensures Stays(who, s, TaskLoop(s, w))
  {}

  lemma PopTakeStays(s: State, w: nat, chosen: nat, who: Who)
    requires WorkerEnabled(s, w, chosen) && Exists(who, s) && who != Pooled(w)
    ensures Stays(who, s, PopTake(s, w, chosen))
  {}

  lemma OtherWorkerStays(s: State, w: nat, chosen: nat, who: Who)
    requires WorkerEnabled(s, w, chosen) && Exists(who, s) && who != Pooled(w)
    ensures Stays(who, s, WorkerDo(s, w, chosen))
  {
    if InPopWait(s.workers[w]) {
      PopWaitStays(s, w, who);
    } else if InTaskLoop(s.workers[w]) {
      TaskLoopStays(s, w, who);
    } else {
      PopTakeStays(s, w, chosen, who);
    }
  }

  lemma TaskLoopLater(s: State, w: nat)
    requires w < |s.workers|
    ensures Later(s, TaskLoop(s, w))
  {}

  lemma PopTakeLater(s: State, w: nat, chosen: nat)
    requires WorkerEnabled(s, w, chosen)
    ensures Later(s, PopTake(s, w, chosen))
  {}

  lemma WorkerLater(s: State, w: nat, chosen: nat)
    requires WorkerEnabled(s, w, chosen)
    ensures Later(s, WorkerDo(s, w, chosen))
  {
    if InPopWait(s.workers[w]) {
    } else if InTaskLoop(s.workers[w]) {
      TaskLoopLater(s, w);
    } else {
      PopTakeLater(s, w, chosen);
    }
  }

  /** A step of any thread. */
  lemma StepLater(s: State, a: Action)
    requires Enabled(s, a)
    ensures Later(s, Do(s, a))
  {
    match a
    case ProducerStep(p, chosen) => ProducerLater(s, p, chosen);
    case WorkerStep(w, chosen) => WorkerLater(s, w, chosen);
    case _ =>
  }

  lemma OtherStays(s: State, a: Action, who: Who)
    requires Inv(s) && Enabled(s, a) && Exists(who, s) && !Belongs(a, who)
    ensures Stays(who, s, Do(s, a)) && Later(s, Do(s, a))
  {
    StepLater(s, a);
    if who.Pooled? { assert WorkerOk(s, who.w); }
    match a
    case ProducerStep(p, chosen) => OtherProducerStays(s, p, chosen, who);
    case WorkerStep(w, chosen) => OtherWorkerStays(s, w, chosen, who);
    case _ =>
  }

  lemma CallerLocks(s: State, p: nat, cb: Callback)
    requires p < |s.producers| && (s.producers[p] == PLock(cb) || s.producers[p] == PWoken(cb)) && ProducerOk(s, p)
    ensures PushWait(s, p) == s.(owner := Some(Producer(p)), notFullWoken := s.notFullWoken - {p},
                                 producers := s.producers[p := PTest(cb)])
  {
    if p !in s.notFullWoken { assert s.notFullWoken - {p} == s.notFullWoken; }
  }

  lemma PooledLocks(s: State, w: nat)
    requires w < |s.workers| && (s.workers[w] == WLock || s.workers[w] == WWoken) && WorkerOk(s, w)
    ensures PopWait(s, w) == s.(owner := Some(Worker(w)), notEmptyWoken := s.notEmptyWoken - {w},
                                workers := s.workers[w := WTest])
  {
    if w !in s.notEmptyWoken { assert s.notEmptyWoken - {w} == s.notEmptyWoken; }
  }

  /** Every task that worker w has taken has been called, and has returned, exactly once. */
  predicate AllDone(s: State, w: nat) {
    && |s.takers| == |s.calls| == |s.completed|
    && forall t: nat | t < |s.takers| && s.takers[t] == w :: s.calls[t] == 1 && s.completed[t] == 1
  }

  lemma WorkerIsDone(s: State, w: nat)
    requires Inv(s) && w < |s.workers| && s.workers[w].WDone?
    ensures AllDone(s, w)
  {
    forall t: nat | t < |s.takers| && s.takers[t] == w ensures s.calls[t] == 1 && s.completed[t] == 1 {
      assert TicketOk(s, t);
    }
  }

  // ---------- Playing a schedule ----------

  /** Inside pop. */
  predicate InPop(pc: WorkerPc) {
    InPopWait(pc) || pc.WWaiting? || pc.WTake? || pc.WNotify? || pc.WUnlock?
  }

  function ActionOf(t: Turn, who: Who): Action {
    match t
    case Other(a) => a
    case Mine(chosen) => StepOf(who, chosen)
  }

  /** The turn is used in state s. */
  predicate Used(s: State, t: Turn, who: Who) {
    Enabled(s, ActionOf(t, who)) && (t.Other? ==> !Belongs(t.a, who))
  }

  function TurnTaken(s: State, t: Turn, who: Who): State {
    if Used(s, t, who) then Do(s, ActionOf(t, who)) else s
  }

  /** The state after all turns have been taken. */
  function Play(s: State, turns: seq<Turn>, who: Who): State
    decreases |turns|
  {
    if turns == [] then s else Play(TurnTaken(s, turns[0], who), turns[1..], who)
  }

  lemma {:induction false} PlayAppend(s: State, turns: seq<Turn>, more: seq<Turn>, who: Who)
    ensures Play(s, turns + more, who) == Play(Play(s, turns, who), more, who)
    decreases |turns|
  {
    if turns == [] {
      assert turns + more == more;
    } else {
      assert (turns + more)[1..] == turns[1..] + more;
      PlayAppend(TurnTaken(s, turns[0], who), turns[1..], more, who);
    }
  }

  lemma PlayOne(s: State, t: Turn, who: Who)
    ensures Play(s, [t], who) == TurnTaken(s, t, who)
  {
    var none: seq<Turn> := [];
    assert [t][1..] == none;
    assert Play(TurnTaken(s, t, who), none, who) == TurnTaken(s, t, who);
  }

  /** The actions of the turns that are used. */
  function Actions(s: State, turns: seq<Turn>, who: Who): seq<Action>
    decreases |turns|
  {
    if turns == [] then []
    else
      (if Used(s, turns[0], who) then [ActionOf(turns[0], who)] else [])
      + Actions(TurnTaken(s, turns[0], who), turns[1..], who)
  }

  /** Playing a schedule is a run of the transition system. */
  lemma {:induction false} PlayIsRun(s: State, turns: seq<Turn>, who: Who)
    ensures Legal(s, Actions(s, turns, who)) && Exec(s, Actions(s, turns, who)) == Play(s, turns, who)
    decreases |turns|
  {
    if turns == [] {
    } else {
      var rest := Actions(TurnTaken(s, turns[0], who), turns[1..], who);
      PlayIsRun(TurnTaken(s, turns[0], who), turns[1..], who);
      if Used(s, turns[0], who) {
        assert ([ActionOf(turns[0], who)] + rest)[1..] == rest;
      } else {
        assert [] + rest == rest;
      }
    }
  }

  /** Turn i has been taken in the state it found, and has led to the next one. */
  predicate Took(states: seq<State>, schedule: seq<Turn>, who: Who, i: nat) {
    i < |schedule| && i + 1 < |states| && states[i + 1] == TurnTaken(states[i], schedule[i], who)
  }

  /** The states at the turns of the schedule, up to the `left` turns that are still to come. */
  predicate Played(start: State, schedule: seq<Turn>, who: Who, states: seq<State>, left: nat, s: State) {
    && left <= |schedule| && |states| == |schedule| - left + 1
    && states[0] == start && states[|states| - 1] == s
    && (forall i: nat {:trigger Took(states, schedule, who, i)} | i + 1 < |states| :: Took(states, schedule, who, i))
  }

  lemma PlayedNext(start: State, schedule: seq<Turn>, who: Who, states: seq<State>, left: nat, s: State)
    requires Played(start, schedule, who, states, left, s) && left >= 1
    ensures var s' := TurnTaken(s, schedule[|schedule| - left], who);
            Played(start, schedule, who, states + [s'], left - 1, s')
  {
    var longer := states + [TurnTaken(s, schedule[|schedule| - left], who)];
    forall i: nat | i + 1 < |longer| ensures Took(longer, schedule, who, i) {
      if i + 1 < |states| { assert Took(states, schedule, who, i); }
    }
  }

  lemma {:induction false} PlayedIsPlay(start: State, schedule: seq<Turn>, who: Who, states: seq<State>, left: nat,
                                        s: State)
    requires Played(start, schedule, who, states, left, s)
    ensures Play(start, schedule[..|schedule| - left], who) == s
    decreases |states|
  {
    var n := |schedule| - left;
    if n == 0 {
      assert schedule[..0] == [];
    } else {
      assert Took(states, schedule, who, n - 1);
      var before := states[..n];
      forall i: nat | i + 1 < |before| ensures Took(before, schedule, who, i) { assert Took(states, schedule, who, i); }
      PlayedIsPlay(start, schedule, who, before, left + 1, states[n - 1]);
      assert schedule[..n] == schedule[..n - 1] + [schedule[n - 1]];
      PlayAppend(start, schedule[..n - 1], [schedule[n - 1]], who);
      PlayOne(states[n - 1], schedule[n - 1], who);
    }
  }

  class Pool {
    // TaskQueue
    var que: seq<Callback>
    var flag: bool
    var owner: Option<ThreadId>
    var notFull: set<nat>
    var notFullWoken: set<nat>
    var notEmpty: set<nat>
    var notEmptyWoken: set<nat>
    // ThreadPool and Thread
    var isExit: bool
    var isRunning: set<nat>
    // where the threads are, what stays fixed, and the histories
    var world: State
    var script: seq<Turn>
    // the thread, where it began, its whole schedule, and the states at all turns so far
    const who: Who
    ghost const start: State
    ghost const schedule: seq<Turn>
    ghost var states: seq<State>
    ghost var now: State

    function View(): State
      reads this
    {
      world.(que := que, flag := flag, owner := owner, notFull := notFull, notFullWoken := notFullWoken,
             notEmpty := notEmpty, notEmptyWoken := notEmptyWoken, isExit := isExit, isRunning := isRunning)
    }

    /** A thread's view of a pool in state s. */
    constructor (who: Who, s: State, script: seq<Turn>)
      requires Inv(s)
      ensures Valid() && now == s && this.who == who && this.script == script
    {
      que, flag, owner, isExit, isRunning := s.que, s.flag, s.owner, s.isExit, s.isRunning;
      notFull, notFullWoken, notEmpty, notEmptyWoken := s.notFull, s.notFullWoken, s.notEmpty, s.notEmptyWoken;
      world, now, states, this.script := s, s, [s], script;
      this.who, start, schedule := who, s, script;
    }

    ghost predicate Valid()
      reads this
    {
      && Inv(start) && Played(start, schedule, who, states, |script|, now)
      && script == schedule[|schedule| - |script|..]
      && View() == now
    }

    lemma ValidInv()
      requires Valid()
      ensures Inv(now)
    {
      var turns := schedule[..|schedule| - |script|];
      PlayedIsPlay(start, schedule, who, states, |script|, now);
      PlayIsRun(start, turns, who);
      RunInv(start, Actions(start, turns, who));
    }

    /** The state is what the turns so far lead to. */
    lemma NowIsPlayed()
      requires Valid()
      ensures now == Play(start, schedule[..|schedule| - |script|], who)
    {
      PlayedIsPlay(start, schedule, who, states, |script|, now);
    }

    /** What has happened since the script was script0 and the state s0. */
    lemma PlayedSince(s0: State, script0: seq<Turn>)
      requires Valid() && |script| <= |script0| <= |schedule| && script0 == schedule[|schedule| - |script0|..]
      requires s0 == Play(start, schedule[..|schedule| - |script0|], who)
      ensures now == Play(s0, script0[..|script0| - |script|], who)
    {
      NowIsPlayed();
      var n0, n1 := |schedule| - |script0|, |schedule| - |script|;
      assert schedule[..n1] == schedule[..n0] + script0[..n1 - n0];
      PlayAppend(start, schedule[..n0], script0[..n1 - n0], who);
    }

    // what the invariant says about a thread

    lemma CallerLocksNow(p: nat, cb: Callback)
      requires Valid() && p < |now.producers| && (now.producers[p] == PLock(cb) || now.producers[p] == PWoken(cb))
      ensures PushWait(now, p) == now.(owner := Some(Producer(p)), notFullWoken := now.notFullWoken - {p},
                                       producers := now.producers[p := PTest(cb)])
    {
      ValidInv();
      CallerLocks(now, p, cb);
    }

    lemma PooledLocksNow(w: nat)
      requires Valid() && w < |now.workers| && (now.workers[w] == WLock || now.workers[w] == WWoken)
      ensures PopWait(now, w) == now.(owner := Some(Worker(w)), notEmptyWoken := now.notEmptyWoken - {w},
                                      workers := now.workers[w := WTest])
    {
      ValidInv();
      PooledLocks(now, w);
    }

    lemma TicketIsNext()
      requires Valid()
      ensures |now.pushers| == |now.pushed|
    {
      ValidInv();
    }

    /** What a worker has in its hands, it has taken from the queue. */
    lemma HasTaken(w: nat)
      requires Valid() && w < |now.workers| && Held(now.workers[w]).Item?
      ensures var t := Held(now.workers[w]).ticket;
              && t < |now.takers| == |now.popped| == |now.calls| == |now.completed|
              && now.takers[t] == w && now.popped[t] == Held(now.workers[w]).cb
              && now.completed[t] == 0 && now.calls[t] == if Runs(now.workers[w], t) then 1 else 0
    {
      ValidInv();
      assert WorkerOk(now, w) && TicketOk(now, Held(now.workers[w]).ticket);
    }

    lemma LeftWithAllDone(w: nat)
      requires Valid() && w < |now.workers| && now.workers[w].WDone?
      ensures AllDone(now, w)
    {
      ValidInv();
      WorkerIsDone(now, w);
    }

    lemma NotRunning(w: nat)
      requires Valid() && w < |now.workers| && w !in now.isRunning
      ensures now.workers[w].WNotStarted? || (now.workers[w].WDone? && now.isExit)
      ensures now.control.CRunning? ==> now.workers[w].WNotStarted?
    {
      ValidInv();
      assert WorkerOk(now, w);
    }

    lemma FlagIsCleared()
      requires Valid() && now.control.CJoin?
      ensures !now.flag
    {
      ValidInv();
    }

    lemma StoppedWithAllDone(t: nat)
      requires Valid() && now.control.CStopped? && t < now.cut
      ensures now.cut <= |now.calls| == |now.completed|
      ensures now.calls[t] == 1 && now.completed[t] == 1
    {
      ValidInv();
      StoppedMeansDone(now, t);
    }

    lemma StoppedSize()
      requires Valid() && now.control.CStopped?
      ensures now.cut <= |now.calls| == |now.completed|
    {
      ValidInv();
    }

    /** It is this thread's turn, and its next step is enabled; everything but the fields is as Valid() says. */
    ghost predicate Turned(chosen: nat)
      reads this
    {
      && Inv(start) && Played(start, schedule, who, states, |script|, now)
      && script == schedule[|schedule| - |script|..]
      && script != [] && script[0] == Mine(chosen) && Enabled(now, StepOf(who, chosen))
    }

    /** The turn is over. */
    method EndTurn()
      requires Inv(start) && Played(start, schedule, who, states, |script|, now)
      requires script != [] && script == schedule[|schedule| - |script|..] && View() == TurnTaken(now, script[0], who)
      modifies this`script, this`states, this`now
      ensures Valid() && now == TurnTaken(old(now), old(script)[0], who) && script == old(script)[1..]
    {
      PlayedNext(start, schedule, who, states, |script|, now);
      now := TurnTaken(now, script[0], who);
      states := states + [now];
      script := script[1..];
    }

    // the same, for the pieces of push, pop and doTask

    method DidPushWait(p: nat, ghost chosen: nat)
      requires Turned(chosen) && who == Caller(p) && InPushWait(now.producers[p]) && View() == PushWait(now, p)
      modifies this`script, this`states, this`now
      ensures Valid() && now == PushWait(old(now), p) && Later(old(now), now) && script == old(script)[1..]
    {
      StepLater(now, ProducerStep(p, chosen));
      EndTurn();
    }

    method DidPushPut(p: nat, ghost chosen: nat)
      requires Turned(chosen) && who == Caller(p) && !InPushWait(now.producers[p]) && View() == PushPut(now, p, chosen)
      modifies this`script, this`states, this`now
      ensures Valid() && now == PushPut(old(now), p, chosen) && Later(old(now), now) && script == old(script)[1..]
    {
      StepLater(now, ProducerStep(p, chosen));
      EndTurn();
    }

    method DidPopWait(w: nat, ghost chosen: nat)
      requires Turned(chosen) && who == Pooled(w) && InPopWait(now.workers[w]) && View() == PopWait(now, w)
      modifies this`script, this`states, this`now
      ensures Valid() && now == PopWait(old(now), w) && Later(old(now), now) && script == old(script)[1..]
    {
      StepLater(now, WorkerStep(w, chosen));
      EndTurn();
    }

    method DidPopTake(w: nat, ghost chosen: nat)
      requires Turned(chosen) && who == Pooled(w) && !InPopWait(now.workers[w]) && !InTaskLoop(now.workers[w])
      requires View() == PopTake(now, w, chosen)
      modifies this`script, this`states, this`now
      ensures Valid() && now == PopTake(old(now), w, chosen) && Later(old(now), now) && script == old(script)[1..]
    {
      StepLater(now, WorkerStep(w, chosen));
      EndTurn();
    }

    method DidTaskLoop(w: nat, ghost chosen: nat)
      requires Turned(chosen) && who == Pooled(w) && InTaskLoop(now.workers[w]) && View() == TaskLoop(now, w)
      modifies this`script, this`states, this`now
      ensures Valid() && now == TaskLoop(old(now), w) && Later(old(now), now) && script == old(script)[1..]
    {
      StepLater(now, WorkerStep(w, chosen));
      EndTurn();
    }

    method DidControl(ghost chosen: nat)
      requires Turned(chosen) && who == Control && View() == ControlDo(now, chosen != 0)
      modifies this`script, this`states, this`now
      ensures Valid() && now == ControlDo(old(now), chosen != 0) && Later(old(now), now) && script == old(script)[1..]
    {
      StepLater(now, ControlStep(chosen != 0));
      EndTurn();
    }

    /** Another thread has acted. */
    method Become(s: State)
      modifies this
      ensures View() == s && script == old(script) && states == old(states) && now == old(now)
    {
      que, flag, owner, isExit, isRunning := s.que, s.flag, s.owner, s.isExit, s.isRunning;
      notFull, notFullWoken, notEmpty, notEmptyWoken := s.notFull, s.notFullWoken, s.notEmpty, s.notEmptyWoken;
      world := s;
    }

    /** A turn of another thread, or one in which this thread cannot go on. */
    method PassTurn()
      requires Valid() && Exists(who, now) && script != []
      requires script[0].Mine? ==> !Used(now, script[0], who)
      modifies this
      ensures Valid() && script == old(script)[1..]
      ensures Exists(who, now) && Stays(who, old(now), now) && Later(old(now), now)
    {
      if Used(View(), script[0], who) {
        var a := script[0].a;
        ValidInv();
        OtherStays(now, a, who);
        Become(Do(View(), a));
      }
      EndTurn();
    }

    /** Lets others act until it is this thread's turn and its next step is enabled. */
    method Pause() returns (turn: Option<nat>)
      requires Valid() && Exists(who, now)
      modifies this
      ensures Valid() && |script| <= |old(script)|
      ensures Exists(who, now) && Stays(who, old(now), now) && Later(old(now), now)
      ensures if turn.Some? then Turned(turn.value) else script == []
    {
      while script != []
        invariant Valid() && |script| <= |old(script)|
        invariant Exists(who, now) && Stays(who, old(now), now) && Later(old(now), now)
        decreases |script|
      {
        if script[0].Mine? && Used(View(), script[0], who) {
          return Some(script[0].chosen);
        }
        PassTurn();
      }
      return None;
    }

    // ---------- TaskQueue::push ----------

    ghost predicate PushesAt(p: nat, pc: ProducerPc)
      reads this
    {
      Valid() && who == Caller(p) && p < |now.producers| && now.producers[p] == pc
    }

    /** The schedule has come to its end while this thread is inside push. */
    ghost predicate Pushing(p: nat)
      reads this
    {
      Valid() && script == [] && p < |now.producers| && !now.producers[p].PIdle?
    }

    method MoveCaller(p: nat, pc: ProducerPc)
      requires p < |world.producers|
      modifies this`world
      ensures View() == old(View()).(producers := old(View()).producers[p := pc])
    {
      world := world.(producers := world.producers[p := pc]);
    }

    method LockCaller(p: nat, cb: Callback)
      requires p < |world.producers|
      modifies this`owner, this`notFullWoken, this`world
      ensures View() == old(View()).(owner := Some(Producer(p)), notFullWoken := old(notFullWoken) - {p},
                                     producers := old(View()).producers[p := PTest(cb)])
    {
      owner := Some(Producer(p));
      notFullWoken := notFullWoken - {p};
      MoveCaller(p, PTest(cb));
    }

    /** Takes the mutex, at the beginning or after a wait. */
    method LockForPush(p: nat, cb: Callback) returns (ok: bool)
      requires PushesAt(p, PLock(cb)) || PushesAt(p, PWaiting(cb))
      modifies this
      ensures Valid() && |script| <= |old(script)| && Later(old(now), now)
      ensures if ok then PushesAt(p, PTest(cb)) && |script| < |old(script)| else Pushing(p)
    {
      var turn := Pause();
      ok := turn.Some?;
      if ok {
        CallerLocksNow(p, cb);
        LockCaller(p, cb);
        DidPushWait(p, turn.value);
      }
    }

    /** full() */
    method TestFull(p: nat, cb: Callback) returns (ok: bool, full: bool)
      requires PushesAt(p, PTest(cb))
      modifies this
      ensures Valid() && |script| <= |old(script)| && Later(old(now), now)
      ensures if ok then PushesAt(p, if full then PSleep(cb) else PPush(cb)) else Pushing(p)
    {
      var turn := Pause();
      ok, full := turn.Some?, world.queSize == |que|;
      if ok {
        MoveCaller(p, if full then PSleep(cb) else PPush(cb));
        DidPushWait(p, turn.value);
      }
    }

    /** _notFull.wait() up to the point where the thread is blocked. */
    method WaitNotFull(p: nat, cb: Callback) returns (ok: bool)
      requires PushesAt(p, PSleep(cb))
      modifies this
      ensures Valid() && |script| <= |old(script)| && Later(old(now), now)
      ensures if ok then PushesAt(p, PWaiting(cb)) else Pushing(p)
    {
      var turn := Pause();
      ok := turn.Some?;
      if ok {
        owner := None;
        notFull := notFull + {p};
        MoveCaller(p, PWaiting(cb));
        DidPushWait(p, turn.value);
      }
    }

    /** _que.push(task) */
    method PushBack(p: nat, cb: Callback, ghost chosen: nat)
      requires p < |View().producers| && View().producers[p] == PPush(cb)
      modifies this`que, this`world
      ensures View() == PushPut(old(View()), p, chosen)
    {
      que := que + [cb];
      world := world.(pushed := world.pushed + [cb], pushers := world.pushers + [p]);
      MoveCaller(p, PNotify);
    }

    method Put(p: nat, cb: Callback) returns (ok: bool, ticket: nat)
      requires PushesAt(p, PPush(cb))
      modifies this
      ensures Valid() && |script| <= |old(script)| && Later(old(now), now)
      ensures if ok then
                PushesAt(p, PNotify) && |old(now.pushed)| <= ticket && PushedBy(now, p, cb, ticket)
              else Pushing(p)
    {
      ticket := 0;
      var turn := Pause();
      ok := turn.Some?;
      if ok {
        TicketIsNext();
        ticket := |world.pushed|;
        PushBack(p, cb, turn.value);
        DidPushPut(p, turn.value);
      }
    }

    /** _notEmpty.notify() */
    method SignalWorker(w: nat)
      requires notEmpty != {} ==> w < |world.workers|
      modifies this`notEmpty, this`notEmptyWoken, this`world
      ensures View() == SignalNotEmpty(old(View()), w)
    {
      if notEmpty != {} {
        notEmpty := notEmpty - {w};
        notEmptyWoken := notEmptyWoken + {w};
        world := world.(workers := world.workers[w := WWoken]);
      }
    }

    method NotifyNotEmpty(p: nat) returns (ok: bool)
      requires PushesAt(p, PNotify)
      modifies this
      ensures Valid() && |script| <= |old(script)| && Later(old(now), now)
      ensures if ok then PushesAt(p, PUnlock) else Pushing(p)
    {
      var turn := Pause();
      ok := turn.Some?;
      if ok {
        SignalWorker(turn.value);
        MoveCaller(p, PUnlock);
        DidPushPut(p, turn.value);
      }
    }

    method UnlockAfterPush(p: nat) returns (ok: bool)
      requires PushesAt(p, PUnlock)
      modifies this
      ensures Valid() && |script| <= |old(script)| && Later(old(now), now)
      ensures if ok then PushesAt(p, PIdle) else Pushing(p)
    {
      var turn := Pause();
      ok := turn.Some?;
      if ok {
        owner := None;
        MoveCaller(p, PIdle);
        DidPushPut(p, turn.value);
      }
    }

    /** Takes the mutex and tests full(). */
    method LockAndTest(p: nat, cb: Callback) returns (ok: bool, full: bool)
      requires PushesAt(p, PLock(cb)) || PushesAt(p, PWaiting(cb))
      modifies this
      ensures Valid() && |script| <= |old(script)| && Later(old(now), now)
      ensures if ok then
                PushesAt(p, if full then PSleep(cb) else PPush(cb)) && |script| < |old(script)|
              else Pushing(p)
    {
      full := false;
      ok := LockForPush(p, cb);
      if ok {
        ok, full := TestFull(p, cb);
      }
    }

    /** One turn of the wait loop of push. */
    method WaitOnce(p: nat, cb: Callback) returns (ok: bool, full: bool)
      requires PushesAt(p, PSleep(cb))
      modifies this
      ensures Valid() && |script| <= |old(script)| && Later(old(now), now)
      ensures if ok then
                PushesAt(p, if full then PSleep(cb) else PPush(cb)) && |script| < |old(script)|
              else Pushing(p)
    {
      full := false;
      ok := WaitNotFull(p, cb);
      if ok {
        ok, full := LockAndTest(p, cb);
      }
    }

    /** push up to the end of its wait loop. */
    method WaitForRoom(p: nat, cb: Callback) returns (ok: bool)
      requires PushesAt(p, PLock(cb))
      modifies this
      ensures Valid() && |script| <= |old(script)| && Later(old(now), now)
      ensures if ok then PushesAt(p, PPush(cb)) else Pushing(p)
    {
      var full;
      ok, full := LockAndTest(p, cb);
      while ok && full
        invariant Valid() && |script| <= |old(script)| && Later(old(now), now)
        invariant if ok then PushesAt(p, if full then PSleep(cb) else PPush(cb)) else Pushing(p)
        decreases |script|, ok
      {
        ok, full := WaitOnce(p, cb);
      }
    }

    method NotifyAndUnlock(p: nat) returns (ok: bool)
      requires PushesAt(p, PNotify)
      modifies this
      ensures Valid() && |script| <= |old(script)| && Later(old(now), now)
      ensures if ok then PushesAt(p, PIdle) else Pushing(p)
    {
      ok := NotifyNotEmpty(p);
      if ok {
        ok := UnlockAfterPush(p);
      }
    }

    /** push after its wait loop. */
    method PutAndNotify(p: nat, cb: Callback) returns (ok: bool, ticket: nat)
      requires PushesAt(p, PPush(cb))
      modifies this
      ensures Valid() && |script| <= |old(script)| && Later(old(now), now)
      ensures if ok then
                PushesAt(p, PIdle) && |old(now.pushed)| <= ticket && PushedBy(now, p, cb, ticket)
              else Pushing(p)
    {
      ok, ticket := Put(p, cb);
      if ok {
        ghost var before := now;
        ok := NotifyAndUnlock(p);
        assert before.pushed <= now.pushed && before.pushers <= now.pushers;
      }
    }

    /**
     When push returns, its task has entered the queue as number `ticket`, pushed by this thread during this call; it
     does not return while it is blocked.
     */
    method Push(p: nat, cb: Callback) returns (done: bool, ticket: nat)
      requires PushesAt(p, PLock(cb))
      modifies this
      ensures Valid() && |script| <= |old(script)| && Later(old(now), now)
      ensures if done then
                PushesAt(p, PIdle) && |old(now.pushed)| <= ticket && PushedBy(now, p, cb, ticket)
              else Pushing(p)
    {
      ticket := 0;
      done := WaitForRoom(p, cb);
      if done {
        done, ticket := PutAndNotify(p, cb);
      }
    }

    /** ThreadPool::addTask, once it has been called; without a task it has no ticket. */
    method AddTask(p: nat, task: Option<Callback>) returns (done: bool, ticket: Option<nat>)
      requires if task.Some? then PushesAt(p, PLock(task.value)) else PushesAt(p, PIdle)
      modifies this
      ensures Valid() && |script| <= |old(script)| && Later(old(now), now)
      ensures if done then
                && PushesAt(p, PIdle) && (ticket.Some? <==> task.Some?)
                && (task.Some? ==> |old(now.pushed)| <= ticket.value && PushedBy(now, p, task.value, ticket.value))
                && (task == None ==> now == old(now) && script == old(script))
              else Pushing(p)
    {
      ticket := None;
      if task.Some? {
        var n;
        done, n := Push(p, task.value);
        ticket := Some(n);
      } else {
        done := true;
      }
    }

    // ---------- TaskQueue::pop ----------

    ghost predicate PopsAt(w: nat, pc: WorkerPc)
      reads this
    {
      Valid() && who == Pooled(w) && w < |now.workers| && now.workers[w] == pc
    }

    /** The schedule has come to its end while this thread is inside pop. */
    ghost predicate Popping(w: nat)
      reads this
    {
      Valid() && script == [] && w < |now.workers| && InPop(now.workers[w])
    }

    method MovePooled(w: nat, pc: WorkerPc)
      requires w < |world.workers|
      modifies this`world
      ensures View() == old(View()).(workers := old(View()).workers[w := pc])
    {
      world := world.(workers := world.workers[w := pc]);
    }

    method LockPooled(w: nat)
      requires w < |world.workers|
      modifies this`owner, this`notEmptyWoken, this`world
      ensures View() == old(View()).(owner := Some(Worker(w)), notEmptyWoken := old(notEmptyWoken) - {w},
                                     workers := old(View()).workers[w := WTest])
    {
      owner := Some(Worker(w));
      notEmptyWoken := notEmptyWoken - {w};
      MovePooled(w, WTest);
    }

    method LockForPop(w: nat) returns (ok: bool)
      requires PopsAt(w, WLock) || PopsAt(w, WWaiting)
      modifies this
      ensures Valid() && |script| <= |old(script)| && Later(old(now), now)
      ensures if ok then PopsAt(w, WTest) && |script| < |old(script)| else Popping(w)
    {
      var turn := Pause();
      ok := turn.Some?;
      if ok {
        PooledLocksNow(w);
        LockPooled(w);
        DidPopWait(w, turn.value);
      }
    }

    /** empty() && _flag */
    method TestEmpty(w: nat) returns (ok: bool, sleepy: bool)
      requires PopsAt(w, WTest)
      modifies this
      ensures Valid() && |script| <= |old(script)| && Later(old(now), now)
      ensures if ok then PopsAt(w, if sleepy then WSleep else WFlag) else Popping(w)
    {
      var turn := Pause();
      ok, sleepy := turn.Some?, 0 == |que| && flag;
      if ok {
        MovePooled(w, if sleepy then WSleep else WFlag);
        DidPopWait(w, turn.value);
      }
    }

    /** _notEmpty.wait() up to the point where the thread is blocked. */
    method WaitNotEmpty(w: nat) returns (ok: bool)
      requires PopsAt(w, WSleep)
      modifies this
      ensures Valid() && |script| <= |old(script)| && Later(old(now), now)
      ensures if ok then PopsAt(w, WWaiting) else Popping(w)
    {
      var turn := Pause();
      ok := turn.Some?;
      if ok {
        owner := None;
        notEmpty := notEmpty + {w};
        MovePooled(w, WWaiting);
        DidPopWait(w, turn.value);
      }
    }

    /** if(_flag) */
    method TestFlag(w: nat) returns (ok: bool, go: bool)
      requires PopsAt(w, WFlag)
      modifies this
      ensures Valid() && |script| <= |old(script)| && Later(old(now), now)
      ensures if ok then PopsAt(w, if go then WTake else WUnlock(Nothing)) && (go || !now.flag) else Popping(w)
    {
      var turn := Pause();
      ok, go := turn.Some?, flag;
      if ok {
        MovePooled(w, if go then WTake else WUnlock(Nothing));
        DidPopWait(w, turn.value);
      }
    }

    /** What pop returns: a task that has left the queue for worker w since pop was called, or nothing after wakeup. */
    ghost predicate GotFor(w: nat, got: Got, since: nat)
      reads this
    {
      match got
      case Nothing => !now.flag
      case Item(cb, t) =>
        since <= t < |now.popped| && t < |now.takers| && now.popped[t] == cb && now.takers[t] == w
    }

    /** _que.front() and _que.pop() */
    method RemoveFront(w: nat, ghost chosen: nat)
      requires WorkerEnabled(View(), w, chosen) && View().workers[w] == WTake
      modifies this`que, this`world
      ensures View() == PopTake(old(View()), w, chosen)
    {
      var cb, ticket := que[0], |world.popped|;
      que := que[1..];
      world := world.(popped := world.popped + [cb], takers := world.takers + [w],
                      calls := world.calls + [0], completed := world.completed + [0]);
      MovePooled(w, WNotify(cb, ticket));
    }

    /** The same, as a step of the system. */
    method TakeNow(w: nat, ghost chosen: nat) returns (cb: Callback, ticket: nat)
      requires PopsAt(w, WTake) && Turned(chosen)
      modifies this
      ensures Valid() && script == old(script)[1..] && Later(old(now), now)
      ensures PopsAt(w, WNotify(cb, ticket)) && ticket == |old(now.popped)|
    {
      cb, ticket := que[0], |world.popped|;
      RemoveFront(w, chosen);
      DidPopTake(w, chosen);
    }

    method Take(w: nat) returns (ok: bool, cb: Callback, ticket: nat)
      requires PopsAt(w, WTake)
      modifies this
      ensures Valid() && |script| <= |old(script)| && Later(old(now), now)
      ensures if ok then
                PopsAt(w, WNotify(cb, ticket)) && GotFor(w, Item(cb, ticket), |old(now.popped)|)
              else Popping(w)
    {
      cb, ticket := 0, 0;
      var turn := Pause();
      ok := turn.Some?;
      if ok {
        cb, ticket := TakeNow(w, turn.value);
        HasTaken(w);
      }
    }

    /** _notFull.notify() */
    method SignalProducer(p: nat)
      requires notFull != {} ==> p < |world.producers|
      modifies this`notFull, this`notFullWoken, this`world
      ensures View() == SignalNotFull(old(View()), p)
    {
      if notFull != {} {
        notFull := notFull - {p};
        notFullWoken := notFullWoken + {p};
        world := world.(producers := world.producers[p := Woken(world.producers[p])]);
      }
    }

    method NotifyNotFull(w: nat, cb: Callback, ticket: nat) returns (ok: bool)
      requires PopsAt(w, WNotify(cb, ticket))
      modifies this
      ensures Valid() && |script| <= |old(script)| && Later(old(now), now)
      ensures if ok then PopsAt(w, WUnlock(Item(cb, ticket))) else Popping(w)
    {
      var turn := Pause();
      ok := turn.Some?;
      if ok {
        SignalProducer(turn.value);
        MovePooled(w, WUnlock(Item(cb, ticket)));
        DidPopTake(w, turn.value);
      }
    }

    method UnlockAfterPop(w: nat, got: Got) returns (ok: bool)
      requires PopsAt(w, WUnlock(got))
      modifies this
      ensures Valid() && |script| <= |old(script)| && Later(old(now), now)
      ensures if ok then PopsAt(w, WGot(got)) else Popping(w)
    {
      var turn := Pause();
      ok := turn.Some?;
      if ok {
        owner := None;
        MovePooled(w, WGot(got));
        DidPopTake(w, turn.value);
      }
    }

    method LockAndTestEmpty(w: nat) returns (ok: bool, sleepy: bool)
      requires PopsAt(w, WLock) || PopsAt(w, WWaiting)
      modifies this
      ensures Valid() && |script| <= |old(script)| && Later(old(now), now)
      ensures if ok then PopsAt(w, if sleepy then WSleep else WFlag) && |script| < |old(script)| else Popping(w)
    {
      sleepy := false;
      ok := LockForPop(w);
      if ok {
        ok, sleepy := TestEmpty(w);
      }
    }

    method SleepOnce(w: nat) returns (ok: bool, sleepy: bool)
      requires PopsAt(w, WSleep)
      modifies this
      ensures Valid() && |script| <= |old(script)| && Later(old(now), now)
      ensures if ok then PopsAt(w, if sleepy then WSleep else WFlag) && |script| < |old(script)| else Popping(w)
    {
      sleepy := false;
      ok := WaitNotEmpty(w);
      if ok {
        ok, sleepy := LockAndTestEmpty(w);
      }
    }

    method WaitForTask(w: nat) returns (ok: bool)
      requires PopsAt(w, WLock)
      modifies this
      ensures Valid() && |script| <= |old(script)| && Later(old(now), now)
      ensures if ok then PopsAt(w, WFlag) && |script| < |old(script)| else Popping(w)
    {
      var sleepy;
      ok, sleepy := LockAndTestEmpty(w);
      while ok && sleepy
        invariant Valid() && |script| <= |old(script)| && Later(old(now), now)
        invariant if ok then PopsAt(w, if sleepy then WSleep else WFlag) && |script| < |old(script)| else Popping(w)
        decreases |script|, ok
      {
        ok, sleepy := SleepOnce(w);
      }
    }

    method TakeAndNotify(w: nat) returns (ok: bool, got: Got)
      requires PopsAt(w, WTake)
      modifies this
      ensures Valid() && |script| <= |old(script)| && Later(old(now), now)
      ensures if ok then PopsAt(w, WUnlock(got)) && GotFor(w, got, |old(now.popped)|) else Popping(w)
    {
      got := Nothing;
      var cb, ticket;
      ok, cb, ticket := Take(w);
      if ok {
        ghost var before := now;
        ok := NotifyNotFull(w, cb, ticket);
        got := Item(cb, ticket);
        assert before.popped <= now.popped && before.takers <= now.takers;
      }
    }

    /** pop after its wait loop. */
    method Finish(w: nat) returns (ok: bool, got: Got)
      requires PopsAt(w, WFlag)
      modifies this
      ensures Valid() && |script| <= |old(script)| && Later(old(now), now)
      ensures if ok then PopsAt(w, WUnlock(got)) && GotFor(w, got, |old(now.popped)|) else Popping(w)
    {
      got := Nothing;
      var go;
      ok, go := TestFlag(w);
      if ok && go {
        ok, got := TakeAndNotify(w);
      }
    }

    method FinishAndUnlock(w: nat) returns (ok: bool, got: Got)
      requires PopsAt(w, WFlag)
      modifies this
      ensures Valid() && |script| <= |old(script)| && Later(old(now), now)
      ensures if ok then PopsAt(w, WGot(got)) && GotFor(w, got, |old(now.popped)|) else Popping(w)
    {
      ok, got := Finish(w);
      if ok {
        ghost var before := now;
        ok := UnlockAfterPop(w, got);
        assert before.popped <= now.popped && before.takers <= now.takers;
      }
    }

    /**
     When pop returns a task, it has been taken from the queue by this call and for this worker; it returns the empty
     function only after wakeup() has cleared _flag.
     */
    method Pop(w: nat) returns (done: bool, got: Got)
      requires PopsAt(w, WLock)
      modifies this
      ensures Valid() && |script| <= |old(script)| && Later(old(now), now)
      ensures if done then
                PopsAt(w, WGot(got)) && GotFor(w, got, |old(now.popped)|) && |script| < |old(script)|
              else Popping(w)
    {
      got := Nothing;
      done := WaitForTask(w);
      if done {
        done, got := FinishAndUnlock(w);
      }
    }

    // ---------- ThreadPool::doTask ----------

    /** The schedule has come to its end while this thread is inside doTask. */
    ghost predicate Working(w: nat)
      reads this
    {
      Valid() && script == [] && w < |now.workers| && !now.workers[w].WDone?
    }

    /** while(!_isExit) */
    method TestExit(w: nat) returns (ok: bool, exit: bool)
      requires PopsAt(w, WLoop)
      modifies this
      ensures Valid() && |script| <= |old(script)| && Later(old(now), now)
      ensures if ok then PopsAt(w, if exit then WDone else WLock) && (exit ==> now.isExit) else Working(w)
    {
      var turn := Pause();
      ok, exit := turn.Some?, isExit;
      if ok {
        MovePooled(w, if exit then WDone else WLock);
        DidTaskLoop(w, turn.value);
      }
    }

    /** if(taskcb), and the beginning of the call */
    method TestTask(w: nat, got: Got) returns (ok: bool)
      requires PopsAt(w, WGot(got))
      modifies this
      ensures Valid() && |script| <= |old(script)| && Later(old(now), now)
      ensures if ok then PopsAt(w, if got.Item? then WRun(got.cb, got.ticket) else WLoop) else Working(w)
    {
      var turn := Pause();
      ok := turn.Some?;
      if ok {
        if got.Item? {
          world := world.(calls := Bump(world.calls, got.ticket));
        }
        MovePooled(w, if got.Item? then WRun(got.cb, got.ticket) else WLoop);
        DidTaskLoop(w, turn.value);
      }
    }

    /** The end of the call: the task has been called, and has returned, exactly once. */
    method ReturnFromTask(w: nat, cb: Callback, ticket: nat) returns (ok: bool)
      requires PopsAt(w, WRun(cb, ticket))
      modifies this
      ensures Valid() && |script| <= |old(script)| && Later(old(now), now)
      ensures if ok then
                && PopsAt(w, WLoop) && ticket < |now.calls| && ticket < |now.completed|
                && now.calls[ticket] == 1 && now.completed[ticket] == 1
              else Working(w)
    {
      var turn := Pause();
      ok := turn.Some?;
      if ok {
        HasTaken(w);
        world := world.(completed := Bump(world.completed, ticket));
        MovePooled(w, WLoop);
        DidTaskLoop(w, turn.value);
      }
    }

    /** The call of what pop has returned. */
    method CallTask(w: nat, got: Got) returns (ok: bool)
      requires PopsAt(w, WGot(got))
      modifies this
      ensures Valid() && |script| <= |old(script)| && Later(old(now), now)
      ensures if ok then PopsAt(w, WLoop) else Working(w)
    {
      ok := TestTask(w, got);
      if ok && got.Item? {
        ok := ReturnFromTask(w, got.cb, got.ticket);
      }
    }

    /** One turn of doTask: getTask and the call of what it returns. */
    method DoOneTask(w: nat) returns (ok: bool)
      requires PopsAt(w, WLock)
      modifies this
      ensures Valid() && |script| <= |old(script)| && Later(old(now), now)
      ensures if ok then PopsAt(w, WLoop) && |script| < |old(script)| else Working(w)
    {
      var got;
      ok, got := Pop(w);
      if ok {
        ok := CallTask(w, got);
      }
    }

    /** When doTask returns, every task this worker has taken has been called, and has returned, exactly once. */
    method DoTask(w: nat) returns (done: bool)
      requires PopsAt(w, WLoop)
      modifies this
      ensures Valid() && Later(old(now), now)
      ensures if done then PopsAt(w, WDone) && now.isExit && AllDone(now, w) else Working(w)
    {
      var exit;
      done, exit := TestExit(w);
      while done && !exit
        invariant Valid() && Later(old(now), now)
        invariant if done then PopsAt(w, if exit then WDone else WLock) && (exit ==> now.isExit) else Working(w)
        decreases |script|, done
      {
        done := DoOneTask(w);
        if done {
          done, exit := TestExit(w);
        }
      }
      if done {
        LeftWithAllDone(w);
      }
    }

    // ---------- ThreadPool::start, ThreadPool::stop and TaskQueue::wakeup ----------

    ghost predicate ControlAt(pc: ControlPc)
      reads this
    {
      Valid() && who == Control && now.control == pc
    }

    /** The schedule has come to its end while this thread is inside start. */
    ghost predicate Starting()
      reads this
    {
      Valid() && script == [] && now.control.CStart?
    }

    /** The schedule has come to its end while this thread is inside stop. */
    ghost predicate Stopping()
      reads this
    {
      Valid() && script == [] && !now.control.CStopped?
    }

    method MoveControl(pc: ControlPc)
      modifies this`world
      ensures View() == old(View()).(control := pc)
    {
      world := world.(control := pc);
    }

    /** Thread::start of thread number k; pthread_create may fail. */
    method Create(k: nat) returns (ok: bool, created: bool)
      requires ControlAt(CStart(k)) && k < |now.workers|
      modifies this
      ensures |script| <= |old(script)|
      ensures Valid() && |now.workers| == |old(now.workers)|
      ensures if ok then
                && ControlAt(CStart(k + 1))
                && now.isRunning == old(now.isRunning) + if created then {k} else {}
              else Starting()
    {
      var turn := Pause();
      ok, created := turn.Some?, turn.Some? && turn.value != 0;
      if ok {
        if created {
          MovePooled(k, WLoop);
          isRunning := isRunning + {k};
        }
        MoveControl(CStart(k + 1));
        DidControl(turn.value);
      }
    }

    /**
     When start returns, the running threads are those whose creation has succeeded, and every thread has been tried;
     the others have not been started.
     */
    method Start() returns (done: bool, created: seq<bool>)
      requires ControlAt(CStart(0)) && now.isRunning == {}
      modifies this
      ensures |script| <= |old(script)|
      ensures if done then
                && ControlAt(CRunning) && |created| == |now.workers|
                && (forall w: nat | w < |created| :: created[w] <==> w in now.isRunning)
                && (forall w: nat | w < |created| && !created[w] :: now.workers[w].WNotStarted?)
              else Starting()
    {
      created := [];
      done := true;
      while done && |created| < |world.workers|
        invariant Valid() && |script| <= |old(script)| && |now.workers| == |old(now.workers)|
        invariant if done then
                    && ControlAt(CStart(|created|)) && |created| <= |now.workers|
                    && (forall w: nat :: w in now.isRunning <==> w < |created| && created[w])
                  else Starting()
        decreases |now.workers| - |created|
      {
        var c;
        done, c := Create(|created|);
        created := created + [c];
      }
      if done {
        done := Started(|created|);
      }
      if done {
        forall w: nat | w < |created| && !created[w] ensures now.workers[w].WNotStarted? {
          NotRunning(w);
        }
      }
    }

    method Started(k: nat) returns (ok: bool)
      requires ControlAt(CStart(k)) && k == |now.workers|
      modifies this
      ensures |script| <= |old(script)|
      ensures if ok then
                ControlAt(CRunning) && now.isRunning == old(now.isRunning) && |now.workers| == |old(now.workers)|
              else Starting()
    {
      var turn := Pause();
      ok := turn.Some?;
      if ok {
        MoveControl(CRunning);
        DidControl(turn.value);
      }
    }

    /** while(!_taskQue.empty()), without the mutex */
    method TestDrained() returns (ok: bool, empty: bool)
      requires ControlAt(CDrain)
      modifies this
      ensures Valid() && Later(old(now), now) && |script| <= |old(script)|
      ensures if ok then
                && ControlAt(if empty then CExit else CDrain) && |script| < |old(script)|
                && (empty ==> now.cut == |now.pushed|)
              else Stopping()
    {
      var turn := Pause();
      ok, empty := turn.Some?, 0 == |que|;
      if ok {
        if empty {
          world := world.(cut := |world.pushed|);
          MoveControl(CExit);
        }
        DidControl(turn.value);
      }
    }

    /** _isExit = true */
    method SetExit() returns (ok: bool)
      requires ControlAt(CExit)
      modifies this
      ensures |script| <= |old(script)|
      ensures if ok then ControlAt(CFlag) && now.cut == old(now.cut) else Stopping()
    {
      var turn := Pause();
      ok := turn.Some?;
      if ok {
        isExit := true;
        MoveControl(CFlag);
        DidControl(turn.value);
      }
    }

    /** _flag = false */
    method ClearFlag() returns (ok: bool)
      requires ControlAt(CFlag)
      modifies this
      ensures |script| <= |old(script)|
      ensures if ok then ControlAt(CBroadcast) && now.cut == old(now.cut) else Stopping()
    {
      var turn := Pause();
      ok := turn.Some?;
      if ok {
        flag := false;
        MoveControl(CBroadcast);
        DidControl(turn.value);
      }
    }

    /** _notEmpty.notifyAll() */
    method Broadcast()
      modifies this`notEmpty, this`notEmptyWoken, this`world
      ensures View() == BroadcastNotEmpty(old(View()))
    {
      var woken := BroadcastNotEmpty(View());
      notEmptyWoken := notEmptyWoken + notEmpty;
      notEmpty := {};
      world := world.(workers := woken.workers);
    }

    method NotifyAll() returns (ok: bool)
      requires ControlAt(CBroadcast)
      modifies this
      ensures |script| <= |old(script)|
      ensures if ok then ControlAt(CJoin(0)) && now.cut == old(now.cut) && now.notEmpty == {}
              else Stopping()
    {
      var turn := Pause();
      ok := turn.Some?;
      if ok {
        Broadcast();
        MoveControl(CJoin(0));
        DidControl(turn.value);
      }
    }

    method Wakeup() returns (done: bool)
      requires ControlAt(CFlag)
      modifies this
      ensures |script| <= |old(script)|
      ensures if done then ControlAt(CJoin(0)) && now.cut == old(now.cut) && now.notEmpty == {} && !now.flag
              else Stopping()
    {
      done := ClearFlag();
      if done {
        done := NotifyAll();
      }
      if done {
        FlagIsCleared();
      }
    }

    /** Thread::stop of thread number k.  A thread that has been joined has left doTask. */
    method Join(k: nat) returns (ok: bool)
      requires ControlAt(CJoin(k)) && k < |now.workers|
      modifies this
      ensures |script| <= |old(script)|
      ensures Valid() && |now.workers| == |old(now.workers)|
      ensures if ok then
                && ControlAt(CJoin(k + 1)) && now.cut == old(now.cut)
                && k !in now.isRunning && (now.workers[k].WDone? || now.workers[k].WNotStarted?)
              else Stopping()
    {
      var turn := Pause();
      ok := turn.Some?;
      if ok {
        isRunning := isRunning - {k};
        MoveControl(CJoin(k + 1));
        DidControl(turn.value);
        NotRunning(k);
      }
    }

    /** The end of the loop of stop. */
    method Joined(k: nat) returns (ok: bool)
      requires ControlAt(CJoin(k)) && k == |now.workers|
      modifies this
      ensures |script| <= |old(script)|
      ensures if ok then ControlAt(CStopped) && now.cut == old(now.cut) else Stopping()
    {
      var turn := Pause();
      ok := turn.Some?;
      if ok {
        MoveControl(CStopped);
        DidControl(turn.value);
      }
    }

    method JoinAll() returns (done: bool)
      requires ControlAt(CJoin(0))
      modifies this
      ensures |script| <= |old(script)|
      ensures if done then ControlAt(CStopped) && now.cut == old(now.cut) else Stopping()
    {
      var k := 0;
      done := true;
      while done && k < |world.workers|
        invariant Valid() && |script| <= |old(script)| && |now.workers| == |old(now.workers)|
        invariant if done then ControlAt(CJoin(k)) && k <= |now.workers| && now.cut == old(now.cut) else Stopping()
        decreases |now.workers| - k, done
      {
        done := Join(k);
        k := k + 1;
      }
      if done {
        done := Joined(k);
      }
    }

    /** The while loop of stop. */
    method Drain() returns (done: bool)
      requires ControlAt(CDrain)
      modifies this
      ensures |script| <= |old(script)|
      ensures if done then ControlAt(CExit) && |old(now.pushed)| <= now.cut else Stopping()
    {
      var empty;
      done, empty := TestDrained();
      while done && !empty
        invariant Valid() && |script| <= |old(script)| && Later(old(now), now)
        invariant if done then
                    && ControlAt(if empty then CExit else CDrain) && (empty ==> now.cut == |now.pushed|)
                  else Stopping()
        decreases |script|, done
      {
        done, empty := TestDrained();
      }
    }

    /** When stop returns, every task that had been pushed when it was called has run exactly once. */
    method Stop() returns (done: bool)
      requires ControlAt(CDrain)
      modifies this
      ensures |script| <= |old(script)|
      ensures if done then
                && ControlAt(CStopped) && |old(now.pushed)| <= |now.calls| == |now.completed|
                && forall t: nat | t < |old(now.pushed)| :: now.calls[t] == 1 && now.completed[t] == 1
              else Stopping()
    {
      done := Drain();
      if done {
        done := SetExit();
      }
      if done {
        done := Wakeup();
      }
      if done {
        done := JoinAll();
      }
      if done {
        StoppedSize();
        forall t: nat | t < |old(now.pushed)| ensures now.calls[t] == 1 && now.completed[t] == 1 {
          StoppedWithAllDone(t);
        }
      }
    }
  }

}
