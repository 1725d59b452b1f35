/**
 Calls that nobody stands in the way of: with enough turns they return, and do what they are for.  Each is a
 consequence of the contract of the method alone, together with what the transition system does at each turn.
 */
module PoolCalls {
  import opened Options
  import opened PoolModel
  import opened PoolInvariant
  import opened PoolSafety
  import opened PoolThreads

  lemma PlayLast(s: State, turns: seq<Turn>, who: Who)
    requires turns != []
    ensures var n := |turns| - 1; Play(s, turns, who) == TurnTaken(Play(s, turns[..n], who), turns[n], who)
  {
    var n := |turns| - 1;
    assert turns == turns[..n] + [turns[n]];
    PlayAppend(s, turns[..n], [turns[n]], who);
    PlayOne(Play(s, turns[..n], who), turns[n], who);
  }

  // ---------- push into a queue with room ----------

  /** Turns of the caller only; a signal wakes one of the sleeping workers, if there is one. */
  predicate CallerTurns(s: State, turns: seq<Turn>) {
    forall t | t in turns :: t.Mine? && (s.notEmpty == {} || t.chosen in s.notEmpty)
  }

  /** After k turns of a push that nobody disturbs. */
  predicate InPush(s: State, e: State, p: nat, cb: Callback, k: nat) {
    && p < |e.producers| && e.queSize == s.queSize
    && e.producers[p] == (if k == 0 then PLock(cb) else if k == 1 then PTest(cb) else if k == 2 then PPush(cb)
                          else if k == 3 then PNotify else if k == 4 then PUnlock else PIdle)
    && e.owner == (if 1 <= k <= 4 then Some(Producer(p)) else None)
    && e.que == s.que + (if k <= 2 then [] else [cb])
    && e.pushed == s.pushed + (if k <= 2 then [] else [cb])
    && (k <= 3 ==> e.notEmpty == s.notEmpty && |e.workers| == |s.workers|)
  }

  lemma PushTurn(s: State, e: State, p: nat, cb: Callback, k: nat, t: Turn)
    requires RangeOk(s) && |s.que| < s.queSize && InPush(s, e, p, cb, k) && CallerTurns(s, [t])
    ensures InPush(s, TurnTaken(e, t, Caller(p)), p, cb, if k < 5 then k + 1 else 5)
  {
    assert t in [t];
  }

  lemma {:induction false} PushTurns(s: State, turns: seq<Turn>, p: nat, cb: Callback)
    requires Inv(s) && |s.que| < s.queSize && s.owner == None && p < |s.producers| && s.producers[p] == PLock(cb)
    requires CallerTurns(s, turns)
    ensures InPush(s, Play(s, turns, Caller(p)), p, cb, if |turns| < 5 then |turns| else 5)
    decreases |turns|
  {
    var n := |turns| - 1;
    if turns == [] {
    } else {
      forall t | t in turns[..n] ensures t in turns {}
      PushTurns(s, turns[..n], p, cb);
      PlayLast(s, turns, Caller(p));
      assert turns[n] in turns;
      PushTurn(s, Play(s, turns[..n], Caller(p)), p, cb, if n < 5 then n else 5, turns[n]);
    }
  }

  /** With the mutex free, room in the queue and five turns, push returns, and the task is the last one in the queue. */
  method PushAlone(pool: Pool, p: nat, cb: Callback) returns (ticket: nat)
    requires pool.PushesAt(p, PLock(cb)) && pool.now.owner == None && |pool.now.que| < pool.now.queSize
    requires |pool.script| >= 5 && CallerTurns(pool.now, pool.script)
    modifies pool
    ensures pool.PushesAt(p, PIdle) && pool.now.owner == None && ticket == |old(pool.now.pushed)|
    ensures pool.now.que == old(pool.now.que) + [cb] && pool.now.pushed == old(pool.now.pushed) + [cb]
  {
    ghost var s, script := pool.now, pool.script;
    pool.ValidInv();
    pool.NowIsPlayed();
    var done;
    done, ticket := pool.Push(p, cb);
    pool.PlayedSince(s, script);
    ghost var turns := script[..|script| - |pool.script|];
    assert CallerTurns(s, turns) by { forall t | t in turns ensures t in script {} }
    PushTurns(s, turns, p, cb);
  }

  // ---------- pop from a queue that is not empty ----------

  /** Turns of the worker only; a signal wakes one of the sleeping producers, if there is one. */
  predicate WorkerTurns(s: State, turns: seq<Turn>) {
    forall t | t in turns :: t.Mine? && (s.notFull == {} || t.chosen in s.notFull)
  }

  /** After k turns of a pop that nobody disturbs. */
  predicate InTake(s: State, e: State, w: nat, k: nat)
    requires s.que != []
  {
    var cb, ticket := s.que[0], |s.popped|;
    && w < |e.workers| && e.flag == s.flag
    && e.workers[w] == (if k == 0 then WLock else if k == 1 then WTest else if k == 2 then WFlag
                        else if k == 3 then WTake else if k == 4 then WNotify(cb, ticket)
                        else if k == 5 then WUnlock(Item(cb, ticket))
                        else WGot(Item(cb, ticket)))
    && e.owner == (if 1 <= k <= 5 then Some(Worker(w)) else None)
    && e.que == (if k <= 3 then s.que else s.que[1..])
    && e.popped == s.popped + (if k <= 3 then [] else [cb])
    && (k <= 4 ==> e.notFull == s.notFull && |e.producers| == |s.producers|)
  }

  lemma TakeTurn(s: State, e: State, w: nat, k: nat, t: Turn)
    requires RangeOk(s) && s.flag && s.que != [] && k < 6 && InTake(s, e, w, k) && WorkerTurns(s, [t])
    ensures InTake(s, TurnTaken(e, t, Pooled(w)), w, k + 1)
  {
    assert t in [t];
  }

  lemma {:induction false} TakeTurns(s: State, turns: seq<Turn>, w: nat)
    requires Inv(s) && s.flag && s.que != [] && s.owner == None && w < |s.workers| && s.workers[w] == WLock
    requires WorkerTurns(s, turns) && |turns| <= 6
    ensures InTake(s, Play(s, turns, Pooled(w)), w, |turns|)
    decreases |turns|
  {
    var n := |turns| - 1;
    if turns == [] {
    } else {
      forall t | t in turns[..n] ensures t in turns {}
      TakeTurns(s, turns[..n], w);
      PlayLast(s, turns, Pooled(w));
      assert turns[n] in turns;
      TakeTurn(s, Play(s, turns[..n], Pooled(w)), w, n, turns[n]);
    }
  }

  /** With the mutex free, a task in the queue and six turns, pop returns the front of the queue. */
  method PopAlone(pool: Pool, w: nat) returns (got: Got)
    requires pool.PopsAt(w, WLock) && pool.now.owner == None && pool.now.flag && pool.now.que != []
    requires |pool.script| == 6 && WorkerTurns(pool.now, pool.script)
    modifies pool
    ensures pool.PopsAt(w, WGot(got)) && pool.now.owner == None
    ensures got == Item(old(pool.now.que)[0], |old(pool.now.popped)|)
    ensures pool.now.que == old(pool.now.que)[1..] && pool.now.popped == old(pool.now.popped) + [old(pool.now.que)[0]]
  {
    ghost var s, script := pool.now, pool.script;
    pool.ValidInv();
    pool.NowIsPlayed();
    var done;
    done, got := pool.Pop(w);
    pool.PlayedSince(s, script);
    ghost var turns := script[..|script| - |pool.script|];
    assert WorkerTurns(s, turns) by { forall t | t in turns ensures t in script {} }
    TakeTurns(s, turns, w);
  }

  // ---------- start ----------

  /** After k turns of start: thread i runs if its creation succeeded at turn i, and has not been started otherwise. */
  predicate InStart(s: State, e: State, turns: seq<Turn>, k: nat)
    requires k <= |turns| && forall t | t in turns :: t.Mine?
  {
    var n := |s.workers|;
    && |e.workers| == n && e.control == (if k <= n then CStart(k) else CRunning)
    && (forall w: nat | w < n :: w in e.isRunning <==> w < k && turns[w].chosen != 0)
    && (forall w: nat | w < n :: e.workers[w] == if w < k && turns[w].chosen != 0 then WLoop else WNotStarted)
  }

  lemma StartTurn(s: State, e: State, turns: seq<Turn>, k: nat)
    requires k < |turns| <= |s.workers| + 1 && (forall t | t in turns :: t.Mine?) && InStart(s, e, turns, k)
    ensures InStart(s, TurnTaken(e, turns[k], Control), turns, k + 1)
  {
    assert turns[k] in turns;
  }

  lemma {:induction false} StartTurns(s: State, turns: seq<Turn>, k: nat)
    requires Inv(s) && s.control == CStart(0) && s.isRunning == {}
    requires k <= |turns| <= |s.workers| + 1 && forall t | t in turns :: t.Mine?
    ensures InStart(s, Play(s, turns[..k], Control), turns, k)
    decreases k
  {
    if k == 0 {
      forall w: nat | w < |s.workers| ensures s.workers[w].WNotStarted? { assert WorkerOk(s, w); }
    } else {
      StartTurns(s, turns, k - 1);
      assert turns[..k][..k - 1] == turns[..k - 1];
      PlayLast(s, turns[..k], Control);
      StartTurn(s, Play(s, turns[..k - 1], Control), turns, k - 1);
    }
  }

  /** With a turn for every thread and one to end, start returns; exactly the threads that could be created run. */
  method StartAlone(pool: Pool) returns (created: seq<bool>)
    requires pool.ControlAt(CStart(0)) && pool.now.isRunning == {}
    requires |pool.script| == |pool.now.workers| + 1 && forall t | t in pool.script :: t.Mine?
    modifies pool
    ensures pool.ControlAt(CRunning) && |created| == |pool.now.workers| == |old(pool.now.workers)|
    ensures forall w: nat | w < |created| ::
              && (created[w] <==> old(pool.script)[w].chosen != 0)
              && pool.now.workers[w] == if created[w] then WLoop else WNotStarted
  {
    ghost var s, script := pool.now, pool.script;
    pool.ValidInv();
    pool.NowIsPlayed();
    var done;
    done, created := pool.Start();
    pool.PlayedSince(s, script);
    StartTurns(s, script, |script| - |pool.script|);
  }

  // ---------- stop on an idle pool ----------

  function Repeat(t: Turn, n: nat): seq<Turn> {
    if n == 0 then [] else Repeat(t, n - 1) + [t]
  }

  lemma PlayRepeat(s: State, t: Turn, n: nat, who: Who)
    requires n > 0
    ensures Play(s, Repeat(t, n), who) == TurnTaken(Play(s, Repeat(t, n - 1), who), t, who)
  {
    PlayAppend(s, Repeat(t, n - 1), [t], who);
    PlayOne(Play(s, Repeat(t, n - 1), who), t, who);
  }

  /** The workers from number j on leave, one after the other; each needs six steps after it has been woken. */
  function Leaving(j: nat, n: nat): seq<Turn>
    requires j <= n
    decreases n - j
  {
    if j == n then [] else Repeat(Other(WorkerStep(j, 0)), 6) + Leaving(j + 1, n)
  }

  /** stop() tests, sets the flags and broadcasts; the workers leave; stop() joins them and returns. */
  function Closing(n: nat): seq<Turn> {
    Repeat(Mine(0), 4) + (Leaving(0, n) + Repeat(Mine(0), n + 1))
  }

  /** Every worker is asleep, and nothing is queued. */
  predicate Idle(s: State) {
    && s.control.CDrain? && s.que == [] && s.owner == None
    && forall v: nat | v < |s.workers| :: s.workers[v].WWaiting?
  }

  /** wakeup() has been called, and the workers before j have left. */
  predicate LeftUpTo(s: State, j: nat) {
    && s.control == CJoin(0) && !s.flag && s.isExit && s.que == [] && s.owner == None
    && forall v: nat | v < |s.workers| :: s.workers[v] == if v < j then WDone else WWoken
  }

  /** Worker j is on its way out, k steps after it has been woken. */
  predicate OnItsWay(s: State, j: nat, k: nat) {
    && s.control == CJoin(0) && !s.flag && s.isExit && s.que == [] && j < |s.workers|
    && s.owner == (if 1 <= k <= 3 then Some(Worker(j)) else None)
    && s.workers[j] == (if k == 0 then WWoken else if k == 1 then WTest else if k == 2 then WFlag
                        else if k == 3 then WUnlock(Nothing) else if k == 4 then WGot(Nothing)
                        else if k == 5 then WLoop else WDone)
    && forall v: nat | v < |s.workers| && v != j :: s.workers[v] == if v < j then WDone else WWoken
  }

  lemma WayTurn(s: State, j: nat, k: nat)
    requires OnItsWay(s, j, k) && k < 6
    ensures var e := TurnTaken(s, Other(WorkerStep(j, 0)), Control); OnItsWay(e, j, k + 1) && |e.workers| == |s.workers|
  {}

  lemma {:induction false} WayTurns(s: State, j: nat, k: nat)
    requires LeftUpTo(s, j) && j < |s.workers| && k <= 6
    ensures var e := Play(s, Repeat(Other(WorkerStep(j, 0)), k), Control);
            OnItsWay(e, j, k) && |e.workers| == |s.workers|
    decreases k
  {
    if k == 0 {
    } else {
      WayTurns(s, j, k - 1);
      PlayRepeat(s, Other(WorkerStep(j, 0)), k, Control);
      WayTurn(Play(s, Repeat(Other(WorkerStep(j, 0)), k - 1), Control), j, k - 1);
    }
  }

  lemma {:induction false} AllLeave(s: State, j: nat)
    requires LeftUpTo(s, j) && j <= |s.workers|
    ensures var e := Play(s, Leaving(j, |s.workers|), Control);
            LeftUpTo(e, |s.workers|) && |e.workers| == |s.workers|
    decreases |s.workers| - j
  {
    if j == |s.workers| {
    } else {
      var turns := Repeat(Other(WorkerStep(j, 0)), 6);
      WayTurns(s, j, 6);
      var e := Play(s, turns, Control);
      AllLeave(e, j + 1);
      PlayAppend(s, turns, Leaving(j + 1, |s.workers|), Control);
    }
  }

  /** stop() up to the end of wakeup(), k turns of it. */
  predicate Stopping(s: State, e: State, k: nat) {
    && |e.workers| == |s.workers| && e.que == [] && e.owner == None
    && e.control == (if k == 0 then CDrain else if k == 1 then CExit else if k == 2 then CFlag
                     else if k == 3 then CBroadcast else CJoin(0))
    && (k >= 2 ==> e.isExit) && (k >= 3 ==> !e.flag)
    && forall v: nat | v < |e.workers| :: if k <= 3 then e.workers[v].WWaiting? else e.workers[v].WWoken?
  }

  lemma StoppingTurn(s: State, e: State, k: nat)
    requires Stopping(s, e, k) && k < 4
    ensures Stopping(s, TurnTaken(e, Mine(0), Control), k + 1)
  {}

  lemma {:induction false} StoppingTurns(s: State, k: nat)
    requires Idle(s) && k <= 4
    ensures Stopping(s, Play(s, Repeat(Mine(0), k), Control), k)
    decreases k
  {
    if k == 0 {
    } else {
      StoppingTurns(s, k - 1);
      PlayRepeat(s, Mine(0), k, Control);
      StoppingTurn(s, Play(s, Repeat(Mine(0), k - 1), Control), k - 1);
    }
  }

  lemma {:induction false} JoinTurns(s: State, k: nat)
    requires LeftUpTo(s, |s.workers|) && k <= |s.workers| + 1
    ensures var e := Play(s, Repeat(Mine(0), k), Control);
            && e.workers == s.workers && e.control == if k <= |s.workers| then CJoin(k) else CStopped
    decreases k
  {
    if k == 0 {
    } else {
      JoinTurns(s, k - 1);
      PlayRepeat(s, Mine(0), k, Control);
    }
  }

  lemma PlayThree(s: State, a: seq<Turn>, b: seq<Turn>, c: seq<Turn>, who: Who)
    ensures Play(s, a + (b + c), who) == Play(Play(Play(s, a, who), b, who), c, who)
  {
    PlayAppend(s, a, b + c, who);
    PlayAppend(Play(s, a, who), b, c, who);
  }

  lemma IdlePoolStops(s: State)
    requires Idle(s)
    ensures Play(s, Closing(|s.workers|), Control).control.CStopped?
  {
    var n := |s.workers|;
    var s1 := Play(s, Repeat(Mine(0), 4), Control);
    StoppingTurns(s, 4);
    var s2 := Play(s1, Leaving(0, n), Control);
    AllLeave(s1, 0);
    JoinTurns(s2, n + 1);
    PlayThree(s, Repeat(Mine(0), 4), Leaving(0, n), Repeat(Mine(0), n + 1), Control);
  }

  /** On an idle pool with any number of workers stop returns, once every worker has had the turns to leave. */
  method StopIdle(pool: Pool)
    requires pool.ControlAt(CDrain) && Idle(pool.now) && pool.script == Closing(|pool.now.workers|)
    modifies pool
    ensures pool.ControlAt(CStopped)
  {
    ghost var s, script := pool.now, pool.script;
    pool.NowIsPlayed();
    var done := pool.Stop();
    if !done {
      pool.PlayedSince(s, script);
      assert script[..|script|] == script;
      IdlePoolStops(s);
    }
  }

}
