/**
 The connection registry of EventLoop.cc, with the descriptor table, the epoll interest set and the lifetime of
 connections: which threads hold a reference, and the two close() calls that every TcpConnection makes on the same
 descriptor when it dies (one by its Socket, one by its SocketIO).

 The event loop is one thread.  Worker threads hold references through their tasks and may drop the last one, and
 they open and close descriptors of their own.  Between the two close() calls of one connection any other thread can
 run.
 */
module Registry {
  import opened Options

  type Fd = int

  /** The connection that was accepted as number n. */
  type ConnId = nat

  datatype Owner = Listener | Connection(id: ConnId) | Foreign

  datatype Callback = Connected | Message | Closed

  datatype State = State(
    listen: Fd,
    interest: set<Fd>,             // the epoll interest set
    conns: map<Fd, ConnId>,        // EventLoop::_conns
    open: map<Fd, Owner>,          // the descriptor table of the process
    foreign: set<Fd>,              // descriptors other threads have opened and will close
    refs: multiset<ConnId>,        // shared_ptr copies held by tasks
    dying: Option<ConnId>,         // the loop thread is between the two close() calls of this connection
    dyingElsewhere: set<ConnId>,   // worker threads are between the two close() calls of these
    // histories
    fdOf: seq<Fd>,                 // the descriptor each connection was accepted with
    traces: seq<seq<Callback>>)    // the callbacks fired for each connection

  datatype Action =
    | NewConnection(accepted: Option<Fd>)                   // handleNewConnection
    | HandleMessage(fd: Fd, closed: bool, task: bool)       // handleMessage; task: the callback keeps a reference
    | FinishClose                                           // the loop thread's second close()
    | Release(id: ConnId)                                   // a worker drops a reference
    | FinishRelease(id: ConnId)                             // a worker's second close()
    | OpenForeign(fd: Fd)
    | CloseForeign(fd: Fd)

  function Init(listen: Fd): State {
    State(listen, {listen}, map[], map[listen := Listener], {}, multiset{}, None, {}, [], [])
  }

  /** The kernel never hands out a descriptor that is open.  The loop thread does one thing at a time. */
  predicate Enabled(s: State, a: Action) {
    match a
    case NewConnection(accepted) => s.dying == None && (accepted.Some? ==> accepted.value !in s.open)
    case HandleMessage(fd, closed, _) => s.dying == None && fd != s.listen && (closed ==> fd in s.open)
    case FinishClose => s.dying.Some? && s.dying.value < |s.fdOf|
    case Release(id) => id in s.refs && id < |s.fdOf|
    case FinishRelease(id) => id in s.dyingElsewhere && id < |s.fdOf|
    case OpenForeign(fd) => fd !in s.open
    case CloseForeign(fd) => fd in s.foreign
  }

  /** close(2): a closed descriptor leaves the interest set; closing a number that is not open has no effect. */
  function Close(s: State, fd: Fd): State {
    if fd in s.open then s.(open := s.open - {fd}, interest := s.interest - {fd}) else s
  }

  predicate Registered(s: State, id: ConnId)
    requires id < |s.fdOf|
  {
    s.fdOf[id] in s.conns && s.conns[s.fdOf[id]] == id
  }

  predicate Referenced(s: State, id: ConnId)
    requires id < |s.fdOf|
  {
    Registered(s, id) || id in s.refs
  }

  /** The loop thread has dropped a reference: the connection dies if it was the last one. */
  function Dropped(s: State, id: ConnId): State
    requires id < |s.fdOf|
  {
    if Referenced(s, id) then s else Close(s, s.fdOf[id]).(dying := Some(id))
  }

  function Fire(s: State, id: ConnId, c: Callback): State {
    if id < |s.traces| then s.(traces := s.traces[id := s.traces[id] + [c]]) else s
  }

  /** A new TcpConnection, entered in the registry. */
  function Entered(s: State, fd: Fd): State {
    s.(interest := s.interest + {fd}, conns := s.conns[fd := |s.fdOf|], open := s.open[fd := Connection(|s.fdOf|)],
       fdOf := s.fdOf + [fd], traces := s.traces + [[]])
  }

  /** _conns[fd] = con lets go of an entry that is already there. */
  function Accepted(s: State, fd: Fd): State {
    var id := |s.fdOf|;
    var s' := Entered(s, fd);
    Fire(if fd in s.conns && s.conns[fd] < id then Dropped(s', s.conns[fd]) else s', id, Connected)
  }

  function Handled(s: State, fd: Fd, closed: bool, task: bool): State {
    if fd !in s.conns then s
    else
      var id := s.conns[fd];
      if closed then
        var s' := Fire(s, id, Closed).(interest := s.interest - {fd}, conns := s.conns - {fd});
        if id < |s'.fdOf| then Dropped(s', id) else s'
      else
        Fire(s, id, Message).(refs := if task then s.refs + multiset{id} else s.refs)
  }

  function Released(s: State, id: ConnId): State
    requires id < |s.fdOf|
  {
    var s' := s.(refs := s.refs - multiset{id});
    if Referenced(s', id) then s' else Close(s', s.fdOf[id]).(dyingElsewhere := s.dyingElsewhere + {id})
  }

  function Do(s: State, a: Action): State
    requires Enabled(s, a)
  {
    match a
    case NewConnection(accepted) => if accepted.Some? then Accepted(s, accepted.value) else s
    case HandleMessage(fd, closed, task) => Handled(s, fd, closed, task)
    case FinishClose => Close(s, s.fdOf[s.dying.value]).(dying := None)
    case Release(id) => Released(s, id)
    case FinishRelease(id) => Close(s, s.fdOf[id]).(dyingElsewhere := s.dyingElsewhere - {id})
    case OpenForeign(fd) => s.(open := s.open[fd := Foreign], foreign := s.foreign + {fd})
    case CloseForeign(fd) => Close(s, fd).(foreign := s.foreign - {fd})
  }

  predicate Legal(s: State, run: seq<Action>)
    decreases |run|
  {
    run == [] || (Enabled(s, run[0]) && Legal(Do(s, run[0]), run[1..]))
  }

  function Exec(s: State, run: seq<Action>): State
    requires Legal(s, run)
    decreases |run|
  {
    if run == [] then s else Exec(Do(s, run[0]), run[1..])
  }

  // ---------- Descriptor reuse ----------

  /** A second close() on this number is still to come. */
  predicate Pending(s: State, id: ConnId) {
    s.dying == Some(id) || id in s.dyingElsewhere
  }

  ghost predicate Reusable(s: State, fd: Fd) {
    forall id: ConnId | id < |s.fdOf| && Pending(s, id) :: s.fdOf[id] != fd
  }

  /** The kernel does not hand out a number on which a second close() is still to come. */
  ghost predicate Careful(s: State, a: Action) {
    match a
    case NewConnection(accepted) => accepted.Some? ==> Reusable(s, accepted.value)
    case OpenForeign(fd) => Reusable(s, fd)
    case _ => true
  }

  ghost predicate CarefulRun(s: State, run: seq<Action>)
    requires Legal(s, run)
    decreases |run|
  {
    run == [] || (Careful(s, run[0]) && CarefulRun(Do(s, run[0]), run[1..]))
  }

  // ---------- What holds in every run ----------

  /** One connect, then messages, then at most one close and nothing after it. */
  predicate InOrder(t: seq<Callback>) {
    && t != [] && t[0] == Connected
    && (forall i | 1 <= i < |t| :: t[i] != Connected)
    && (forall i | 0 <= i < |t| - 1 :: t[i] != Closed)
  }

  /** The entry of this number in _conns has a descriptor of its own. */
  predicate Owned(s: State, fd: Fd) {
    fd in s.conns && fd in s.open && s.open[fd] == Connection(s.conns[fd])
  }

  predicate EntryOk(s: State, fd: Fd) {
    && (fd in s.conns ==> s.conns[fd] < |s.fdOf| && s.fdOf[s.conns[fd]] == fd)
    && (fd in s.interest <==> fd == s.listen || Owned(s, fd))
  }

  predicate TraceOk(s: State, id: ConnId)
    requires id < |s.fdOf| == |s.traces|
  {
    InOrder(s.traces[id]) && s.fdOf[id] != s.listen && (Registered(s, id) ==> Closed !in s.traces[id])
  }

  predicate ListenOk(s: State) {
    s.listen in s.open && s.open[s.listen] == Listener && s.listen !in s.conns && s.listen !in s.foreign
  }

  ghost predicate RangeOk(s: State) {
    && (forall id: ConnId | id in s.refs :: id < |s.fdOf|)
    && (s.dying.Some? ==> s.dying.value < |s.fdOf|)
    && (forall id: ConnId | id in s.dyingElsewhere :: id < |s.fdOf|)
  }

  ghost predicate Basic(s: State) {
    && |s.traces| == |s.fdOf| && ListenOk(s) && RangeOk(s)
    && (forall fd: Fd :: EntryOk(s, fd))
    && (forall id: ConnId | id < |s.fdOf| :: TraceOk(s, id))
  }

  lemma FireInOrder(t: seq<Callback>, c: Callback)
    requires InOrder(t) && Closed !in t && c != Connected
    ensures InOrder(t + [c]) && (Closed in t + [c] <==> c == Closed)
  {
    if c == Closed { assert (t + [c])[|t|] == Closed; }
  }

  lemma AcceptedBasic(s: State, fd: Fd)
    requires Basic(s) && fd !in s.open
    ensures Basic(Accepted(s, fd))
  {
    var s' := Accepted(s, fd);
    assert EntryOk(s, fd);
    forall g: Fd ensures EntryOk(s', g) { assert EntryOk(s, g); }
    forall id: ConnId | id < |s'.fdOf| ensures TraceOk(s', id) {
      if id < |s.fdOf| { assert TraceOk(s, id); }
    }
  }

  lemma HandledBasic(s: State, fd: Fd, closed: bool, task: bool)
    requires Basic(s) && fd != s.listen
    ensures Basic(Handled(s, fd, closed, task))
  {
    var s' := Handled(s, fd, closed, task);
    assert EntryOk(s, fd);
    forall g: Fd ensures EntryOk(s', g) { assert EntryOk(s, g); }
    forall id: ConnId | id < |s'.fdOf| ensures TraceOk(s', id) {
      assert TraceOk(s, id);
      if fd in s.conns && s.conns[fd] == id {
        FireInOrder(s.traces[id], if closed then Closed else Message);
      }
    }
  }

  lemma ReleasedBasic(s: State, id: ConnId)
    requires Basic(s) && id in s.refs
    ensures Basic(Released(s, id))
  {
    var s' := Released(s, id);
    assert TraceOk(s, id);
    forall g: Fd ensures EntryOk(s', g) { assert EntryOk(s, g); }
    forall c: ConnId | c < |s'.fdOf| ensures TraceOk(s', c) { assert TraceOk(s, c); }
  }

  /** A close() of any number but the listening one. */
  lemma CloseBasic(s: State, fd: Fd)
    requires Basic(s) && fd != s.listen
    ensures Basic(Close(s, fd))
  {
    var s' := Close(s, fd);
    forall g: Fd ensures EntryOk(s', g) { assert EntryOk(s, g); }
    forall c: ConnId | c < |s'.fdOf| ensures TraceOk(s', c) { assert TraceOk(s, c); }
  }

  /** Nothing that Basic speaks of depends on who is between two close() calls, or on what others have opened. */
  lemma SameBasic(s: State, s': State)
    requires Basic(s) && ListenOk(s') && RangeOk(s')
    requires s' == s.(dying := s'.dying, dyingElsewhere := s'.dyingElsewhere, foreign := s'.foreign)
    ensures Basic(s')
  {
    forall g: Fd ensures EntryOk(s', g) { assert EntryOk(s, g); }
    forall c: ConnId | c < |s'.fdOf| ensures TraceOk(s', c) { assert TraceOk(s, c); }
  }

  lemma OpenedBasic(s: State, fd: Fd)
    requires Basic(s) && fd !in s.open
    ensures Basic(Do(s, OpenForeign(fd)))
  {
    var s' := Do(s, OpenForeign(fd));
    forall g: Fd ensures EntryOk(s', g) { assert EntryOk(s, g); }
    forall c: ConnId | c < |s'.fdOf| ensures TraceOk(s', c) { assert TraceOk(s, c); }
  }

  lemma OtherBasic(s: State, a: Action)
    requires Basic(s) && Enabled(s, a) && !a.NewConnection? && !a.HandleMessage?
    ensures Basic(Do(s, a))
  {
    match a
    case FinishClose =>
      assert TraceOk(s, s.dying.value);
      CloseBasic(s, s.fdOf[s.dying.value]);
      SameBasic(Close(s, s.fdOf[s.dying.value]), Do(s, a));
    case Release(id) => ReleasedBasic(s, id);
    case FinishRelease(id) =>
      assert TraceOk(s, id);
      CloseBasic(s, s.fdOf[id]);
      SameBasic(Close(s, s.fdOf[id]), Do(s, a));
    case OpenForeign(fd) => OpenedBasic(s, fd);
    case CloseForeign(fd) =>
      CloseBasic(s, fd);
      SameBasic(Close(s, fd), Do(s, a));
    case _ =>
  }

  lemma BasicStep(s: State, a: Action)
    requires Basic(s) && Enabled(s, a)
    ensures Basic(Do(s, a))
  {
    match a
    case NewConnection(accepted) => if accepted.Some? { AcceptedBasic(s, accepted.value); }
    case HandleMessage(fd, closed, task) => HandledBasic(s, fd, closed, task);
    case _ => OtherBasic(s, a);
  }

  lemma {:induction false} BasicRun(s: State, run: seq<Action>)
    requires Basic(s) && Legal(s, run)
    ensures Basic(Exec(s, run))
    decreases |run|
  {
    if run == [] {
    } else {
      BasicStep(s, run[0]);
      BasicRun(Do(s, run[0]), run[1..]);
    }
  }

  lemma BasicInit(listen: Fd)
    ensures Basic(Init(listen))
  {}

  /** Over every run, also when numbers are reused: one connect, then messages, then at most one close. */
  lemma CallbackOrder(listen: Fd, run: seq<Action>)
    requires Legal(Init(listen), run)
    ensures var s := Exec(Init(listen), run);
            && |s.traces| == |s.fdOf|
            && (forall id: ConnId | id < |s.fdOf| ::
                  InOrder(s.traces[id]) && (Registered(s, id) ==> Closed !in s.traces[id]))
  {
    BasicInit(listen);
    BasicRun(Init(listen), run);
    var s := Exec(Init(listen), run);
    forall id: ConnId | id < |s.fdOf|
      ensures InOrder(s.traces[id]) && (Registered(s, id) ==> Closed !in s.traces[id])
    {
      assert TraceOk(s, id);
    }
  }

  lemma KeepsTrace(s: State, a: Action, id: ConnId)
    requires Basic(s) && Enabled(s, a) && id < |s.fdOf| && Closed in s.traces[id]
    ensures id < |Do(s, a).fdOf| && id < |Do(s, a).traces| && Do(s, a).traces[id] == s.traces[id]
  {
    assert TraceOk(s, id);
    if a.HandleMessage? && a.fd in s.conns {
      assert EntryOk(s, a.fd);
    }
  }

  lemma {:induction false} TraceStays(s: State, run: seq<Action>, id: ConnId)
    requires Basic(s) && Legal(s, run) && id < |s.fdOf| && Closed in s.traces[id]
    ensures id < |Exec(s, run).traces| && Exec(s, run).traces[id] == s.traces[id]
    decreases |run|
  {
    if run == [] {
    } else {
      BasicStep(s, run[0]);
      KeepsTrace(s, run[0], id);
      TraceStays(Do(s, run[0]), run[1..], id);
    }
  }

  /**
   A connection that has been closed after some run gets no more callbacks in any continuation, whatever happens to its
   number.
   */
  lemma NothingAfterClose(listen: Fd, before: seq<Action>, after: seq<Action>, id: ConnId)
    requires Legal(Init(listen), before) && Legal(Exec(Init(listen), before), after)
    requires var s := Exec(Init(listen), before); id < |s.traces| && Closed in s.traces[id]
    ensures var s, e := Exec(Init(listen), before), Exec(Exec(Init(listen), before), after);
            id < |e.traces| && e.traces[id] == s.traces[id]
  {
    BasicInit(listen);
    BasicRun(Init(listen), before);
    TraceStays(Exec(Init(listen), before), after, id);
  }

  // ---------- Which callbacks fire ----------

  /** The events that a run handles for connection id: the action is for a number under which it is registered. */
  predicate Concerns(s: State, a: Action, id: ConnId, closed: bool) {
    a.HandleMessage? && a.closed == closed && a.fd in s.conns && s.conns[a.fd] == id
  }

  /** How many events with this answer of isClosed a run handles for the connection. */
  function Events(s: State, run: seq<Action>, id: ConnId, closed: bool): nat
    requires Legal(s, run)
    decreases |run|
  {
    if run == [] then 0
    else (if Concerns(s, run[0], id, closed) then 1 else 0) + Events(Do(s, run[0]), run[1..], id, closed)
  }

  /** How many connections a run accepts. */
  function Accepts(run: seq<Action>): nat {
    if run == [] then 0
    else (if run[0].NewConnection? && run[0].accepted.Some? then 1 else 0) + Accepts(run[1..])
  }

  /** How many callbacks of this kind a connection has got; none before it is accepted. */
  function Fired(s: State, id: ConnId, c: Callback): nat {
    if id < |s.traces| then multiset(s.traces[id])[c] else 0
  }

  lemma CountAppend(t: seq<Callback>, x: Callback, c: Callback)
    ensures multiset(t + [x])[c] == multiset(t)[c] + if x == c then 1 else 0
  {}

  lemma AcceptedFires(s: State, fd: Fd, id: ConnId)
    requires Basic(s)
    ensures Accepted(s, fd).traces == s.traces + [[Connected]]
    ensures |Accepted(s, fd).fdOf| == |s.fdOf| + 1
    ensures Fired(Accepted(s, fd), id, Message) == Fired(s, id, Message)
    ensures Fired(Accepted(s, fd), id, Closed) == Fired(s, id, Closed)
  {
    var t := Entered(s, fd).traces;
    assert t[|s.fdOf|] + [Connected] == [Connected];
    assert Accepted(s, fd).traces == t[|s.fdOf| := [Connected]] == s.traces + [[Connected]];
    assert multiset([Connected])[Message] == 0 && multiset([Connected])[Closed] == 0;
  }

  lemma HandledTraces(s: State, fd: Fd, closed: bool, task: bool)
    requires Basic(s)
    ensures var e := Handled(s, fd, closed, task);
            && e.fdOf == s.fdOf
            && (fd !in s.conns ==> e.traces == s.traces)
            && (fd in s.conns ==> var id := s.conns[fd];
                  id < |s.traces| && e.traces == s.traces[id := s.traces[id] + [if closed then Closed else Message]])
  {
    assert EntryOk(s, fd);
  }

  lemma HandledFires(s: State, fd: Fd, closed: bool, task: bool, id: ConnId)
    requires Basic(s)
    ensures var e, here := Handled(s, fd, closed, task), fd in s.conns && s.conns[fd] == id;
            && Fired(e, id, Message) == Fired(s, id, Message) + (if here && !closed then 1 else 0)
            && Fired(e, id, Closed) == Fired(s, id, Closed) + (if here && closed then 1 else 0)
  {
    HandledTraces(s, fd, closed, task);
    if fd in s.conns && s.conns[fd] == id {
      CountAppend(s.traces[id], if closed then Closed else Message, Message);
      CountAppend(s.traces[id], if closed then Closed else Message, Closed);
    }
  }

  lemma StepFires(s: State, a: Action, id: ConnId)
    requires Basic(s) && Enabled(s, a)
    ensures |Do(s, a).fdOf| == |s.fdOf| + if a.NewConnection? && a.accepted.Some? then 1 else 0
    ensures Fired(Do(s, a), id, Message) == Fired(s, id, Message) + if Concerns(s, a, id, false) then 1 else 0
    ensures Fired(Do(s, a), id, Closed) == Fired(s, id, Closed) + if Concerns(s, a, id, true) then 1 else 0
  {
    match a
    case NewConnection(accepted) => if accepted.Some? { AcceptedFires(s, accepted.value, id); }
    case HandleMessage(fd, closed, task) => HandledFires(s, fd, closed, task, id);
    case _ => assert Do(s, a).traces == s.traces && Do(s, a).fdOf == s.fdOf;
  }

  lemma {:induction false} RunFires(s: State, run: seq<Action>, id: ConnId)
    requires Basic(s) && Legal(s, run)
    ensures |Exec(s, run).fdOf| == |s.fdOf| + Accepts(run)
    ensures Fired(Exec(s, run), id, Message) == Fired(s, id, Message) + Events(s, run, id, false)
    ensures Fired(Exec(s, run), id, Closed) == Fired(s, id, Closed) + Events(s, run, id, true)
    decreases |run|
  {
    if run == [] {
    } else {
      StepFires(s, run[0], id);
      BasicStep(s, run[0]);
      RunFires(Do(s, run[0]), run[1..], id);
    }
  }

  /**
   No callback is lost and none is made up, over every run: each accepted connection has got its connect callback, one
   message callback for each event that was handled for its number while it was registered and its peer was open, and
   one close callback for each that found the peer gone, of which there is at most one.
   */
  lemma EveryEventCallsBack(listen: Fd, run: seq<Action>)
    requires Legal(Init(listen), run)
    ensures var s := Exec(Init(listen), run);
            && |s.fdOf| == |s.traces| == Accepts(run)
            && (forall id: ConnId | id < Accepts(run) ::
                  && Fired(s, id, Connected) == 1
                  && Fired(s, id, Message) == Events(Init(listen), run, id, false)
                  && Fired(s, id, Closed) == Events(Init(listen), run, id, true) <= 1)
  {
    var s := Exec(Init(listen), run);
    BasicInit(listen);
    BasicRun(Init(listen), run);
    RunFires(Init(listen), run, 0);
    forall id: ConnId | id < Accepts(run)
      ensures && Fired(s, id, Connected) == 1
              && Fired(s, id, Message) == Events(Init(listen), run, id, false)
              && Fired(s, id, Closed) == Events(Init(listen), run, id, true) <= 1
    {
      RunFires(Init(listen), run, id);
      assert TraceOk(s, id);
      OrderCounts(s.traces[id]);
    }
  }

  lemma NotThere(t: seq<Callback>, c: Callback)
    requires forall i | 0 <= i < |t| :: t[i] != c
    ensures multiset(t)[c] == 0
  {
    assert c !in t;
  }

  lemma OrderCounts(t: seq<Callback>)
    requires InOrder(t)
    ensures multiset(t)[Connected] == 1 && multiset(t)[Closed] <= 1
  {
    assert t == [Connected] + t[1..];
    NotThere(t[1..], Connected);
    assert t == t[..|t| - 1] + [t[|t| - 1]];
    NotThere(t[..|t| - 1], Closed);
    CountAppend(t[..|t| - 1], t[|t| - 1], Closed);
  }

  // ---------- References ----------

  /** How many references to the connection the message callbacks of a run have handed to tasks. */
  function Handed(s: State, run: seq<Action>, id: ConnId): nat
    requires Legal(s, run)
    decreases |run|
  {
    if run == [] then 0
    else
      (if Concerns(s, run[0], id, false) && run[0].task then 1 else 0) + Handed(Do(s, run[0]), run[1..], id)
  }

  /** How many the workers have dropped. */
  function Releases(run: seq<Action>, id: ConnId): nat {
    if run == [] then 0 else (if run[0] == Release(id) then 1 else 0) + Releases(run[1..], id)
  }

  lemma StepBalance(s: State, a: Action, id: ConnId)
    requires Enabled(s, a)
    ensures Do(s, a).refs[id] + (if a == Release(id) then 1 else 0)
         == s.refs[id] + (if Concerns(s, a, id, false) && a.task then 1 else 0)
  {}

  /** References are conserved over every run: what tasks have been handed is still held or has been dropped. */
  lemma {:induction false} ReferencesBalance(s: State, run: seq<Action>, id: ConnId)
    requires Legal(s, run)
    ensures Exec(s, run).refs[id] + Releases(run, id) == s.refs[id] + Handed(s, run, id)
    decreases |run|
  {
    if run == [] {
    } else {
      StepBalance(s, run[0], id);
      ReferencesBalance(Do(s, run[0]), run[1..], id);
    }
  }

  /** The registry, the interest set and the descriptor table agree. */
  ghost predicate Agree(s: State) {
    && s.interest == {s.listen} + s.conns.Keys
    && (forall fd | fd in s.conns :: fd in s.open && s.open[fd] == Connection(s.conns[fd]))
  }

  lemma InterestIsOwned(s: State)
    requires Basic(s)
    ensures forall fd: Fd :: fd in s.interest <==> fd == s.listen || Owned(s, fd)
    ensures Agree(s) <==> forall fd | fd in s.conns :: Owned(s, fd)
  {
    forall fd: Fd ensures fd in s.interest <==> fd == s.listen || Owned(s, fd) { assert EntryOk(s, fd); }
    if forall fd | fd in s.conns :: Owned(s, fd) {
      forall fd: Fd ensures fd in s.interest <==> fd in {s.listen} + s.conns.Keys {}
      forall fd | fd in s.conns ensures fd in s.open && s.open[fd] == Connection(s.conns[fd]) { assert Owned(s, fd); }
    }
  }

  /**
   Over every run the interest set is the listening descriptor and the registered descriptors that are still open and
   their connection's own.  So the tables agree exactly if no registered descriptor has been closed under its
   connection.
   */
  lemma AgreementIsOwnership(listen: Fd, run: seq<Action>)
    requires Legal(Init(listen), run)
    ensures var s := Exec(Init(listen), run);
            && (forall fd: Fd :: fd in s.interest <==> fd == listen || Owned(s, fd))
            && (Agree(s) <==> forall fd | fd in s.conns :: Owned(s, fd))
  {
    BasicInit(listen);
    BasicRun(Init(listen), run);
    ListenStays(Init(listen), run);
    InterestIsOwned(Exec(Init(listen), run));
  }

  lemma {:induction false} ListenStays(s: State, run: seq<Action>)
    requires Legal(s, run)
    ensures Exec(s, run).listen == s.listen
    decreases |run|
  {
    if run == [] {
    } else {
      ListenStays(Do(s, run[0]), run[1..]);
    }
  }

  // ---------- Invariant of runs that reuse no number ----------

  predicate FdOk(s: State, fd: Fd) {
    && (fd in s.foreign <==> fd in s.open && s.open[fd] == Foreign)
    && (fd in s.open ==> match s.open[fd]
                         case Listener => fd == s.listen
                         case Connection(id) => id < |s.fdOf| && s.fdOf[id] == fd
                         case Foreign => true)
  }

  predicate ConnOk(s: State, id: ConnId)
    requires id < |s.fdOf| == |s.traces|
  {
    var fd := s.fdOf[id];
    && (Closed !in s.traces[id] ==> Registered(s, id))
    && (Referenced(s, id) <==> fd in s.open && s.open[fd] == Connection(id))
    && (Pending(s, id) ==> fd !in s.open)
  }

  ghost predicate Inv(s: State) {
    && Basic(s)
    && (forall fd: Fd :: FdOk(s, fd))
    && (forall id: ConnId | id < |s.fdOf| :: ConnOk(s, id))
  }

  lemma InitInv(listen: Fd)
    ensures Inv(Init(listen))
  {}

  // ---------- Every step ----------

  lemma FreeIsUnregistered(s: State, fd: Fd)
    requires Inv(s) && fd !in s.open
    ensures fd !in s.conns && fd != s.listen
  {
    assert EntryOk(s, fd);
    var id := if fd in s.conns then s.conns[fd] else 0;
    if id < |s.fdOf| { assert ConnOk(s, id); }
  }

  lemma AcceptedInv(s: State, fd: Fd)
    requires Inv(s) && fd !in s.open && Reusable(s, fd)
    ensures Inv(Accepted(s, fd))
  {
    var s' := Accepted(s, fd);
    AcceptedBasic(s, fd);
    FreeIsUnregistered(s, fd);
    forall g: Fd ensures FdOk(s', g) { assert FdOk(s, g); }
    forall id: ConnId | id < |s'.fdOf| ensures ConnOk(s', id) {
      if id < |s.fdOf| { assert ConnOk(s, id) && Pending(s', id) == Pending(s, id); }
    }
  }

  lemma HandledFd(s: State, fd: Fd, closed: bool, task: bool, g: Fd)
    requires Basic(s) && FdOk(s, g) && FdOk(s, fd) && EntryOk(s, fd) && fd != s.listen
    requires fd in s.conns ==> ConnOk(s, s.conns[fd])
    ensures FdOk(Handled(s, fd, closed, task), g)
  {}

  lemma HandledConn(s: State, fd: Fd, closed: bool, task: bool, id: ConnId)
    requires Basic(s) && EntryOk(s, fd) && fd != s.listen && id < |s.fdOf| && ConnOk(s, id)
    requires fd in s.conns ==> ConnOk(s, s.conns[fd])
    requires s.dying == None
    ensures var s' := Handled(s, fd, closed, task); |s'.traces| == |s'.fdOf| == |s.fdOf| && ConnOk(s', id)
  {
    if fd in s.conns && s.conns[fd] == id {
      assert TraceOk(s, id);
      FireInOrder(s.traces[id], if closed then Closed else Message);
    }
  }

  lemma HandledInv(s: State, fd: Fd, closed: bool, task: bool)
    requires Inv(s) && Enabled(s, HandleMessage(fd, closed, task))
    ensures Inv(Handled(s, fd, closed, task))
  {
    var s' := Handled(s, fd, closed, task);
    HandledBasic(s, fd, closed, task);
    assert EntryOk(s, fd) && FdOk(s, fd);
    forall g: Fd ensures FdOk(s', g) { HandledFd(s, fd, closed, task, g); }
    forall id: ConnId | id < |s'.fdOf| ensures ConnOk(s', id) { HandledConn(s, fd, closed, task, id); }
  }

  lemma ReleasedInv(s: State, id: ConnId)
    requires Inv(s) && Enabled(s, Release(id))
    ensures Inv(Released(s, id))
  {
    var s' := Released(s, id);
    OtherBasic(s, Release(id));
    var fd := s.fdOf[id];
    assert ConnOk(s, id) && FdOk(s, fd) && EntryOk(s, fd);
    if fd in s.conns { assert ConnOk(s, s.conns[fd]); }
    forall g: Fd ensures FdOk(s', g) { assert FdOk(s, g); }
    forall c: ConnId | c < |s'.fdOf| ensures ConnOk(s', c) { assert ConnOk(s, c); }
  }

  /** The second close() of a connection finds its number closed, and does nothing. */
  lemma SecondCloseIsHarmless(s: State, id: ConnId)
    requires Inv(s) && Pending(s, id)
    ensures id < |s.fdOf| && Close(s, s.fdOf[id]) == s
  {
    assert ConnOk(s, id);
  }

  lemma FinishInv(s: State, a: Action)
    requires Inv(s) && Enabled(s, a) && (a.FinishClose? || a.FinishRelease?)
    ensures Inv(Do(s, a))
  {
    var s' := Do(s, a);
    OtherBasic(s, a);
    SecondCloseIsHarmless(s, if a.FinishClose? then s.dying.value else a.id);
    forall g: Fd ensures FdOk(s', g) { assert FdOk(s, g); }
    forall c: ConnId | c < |s'.fdOf| ensures ConnOk(s', c) { assert ConnOk(s, c); }
  }

  lemma ForeignInv(s: State, a: Action)
    requires Inv(s) && Enabled(s, a) && Careful(s, a) && (a.OpenForeign? || a.CloseForeign?)
    ensures Inv(Do(s, a))
  {
    var s' := Do(s, a);
    OtherBasic(s, a);
    assert FdOk(s, a.fd) && FdOk(s, s.listen);
    forall g: Fd ensures FdOk(s', g) { assert FdOk(s, g); }
    forall c: ConnId | c < |s'.fdOf| ensures ConnOk(s', c) { assert ConnOk(s, c); }
  }

  lemma StepInv(s: State, a: Action)
    requires Inv(s) && Enabled(s, a) && Careful(s, a)
    ensures Inv(Do(s, a))
  {
    match a
    case NewConnection(accepted) => if accepted.Some? { AcceptedInv(s, accepted.value); }
    case HandleMessage(fd, closed, task) => HandledInv(s, fd, closed, task);
    case Release(id) => ReleasedInv(s, id);
    case FinishClose => FinishInv(s, a);
    case FinishRelease(_) => FinishInv(s, a);
    case _ => ForeignInv(s, a);
  }

  lemma {:induction false} RunInv(s: State, run: seq<Action>)
    requires Inv(s) && Legal(s, run) && CarefulRun(s, run)
    ensures Inv(Exec(s, run))
    decreases |run|
  {
    if run == [] {
    } else {
      StepInv(s, run[0]);
      RunInv(Do(s, run[0]), run[1..]);
    }
  }

  // ---------- The results for runs that reuse no number ----------

  lemma InvAgree(s: State)
    requires Inv(s)
    ensures Agree(s)
  {
    forall fd | fd in s.conns ensures Owned(s, fd) { assert EntryOk(s, fd) && ConnOk(s, s.conns[fd]); }
    InterestIsOwned(s);
  }

  /**
   Over every run that reuses no number between two close() calls: the three tables agree, a connection is registered
   exactly until its close callback, its descriptor is open exactly as long as somebody refers to it, and no second
   close() is about to hit an open descriptor.
   */
  lemma RegistryAgrees(listen: Fd, run: seq<Action>)
    requires Legal(Init(listen), run) && CarefulRun(Init(listen), run)
    ensures var s := Exec(Init(listen), run);
            && Agree(s) && |s.traces| == |s.fdOf|
            && (forall id: ConnId | id < |s.fdOf| ::
                  && (Closed in s.traces[id] <==> !Registered(s, id))
                  && (Referenced(s, id) <==> s.fdOf[id] in s.open && s.open[s.fdOf[id]] == Connection(id))
                  && (Pending(s, id) ==> s.fdOf[id] !in s.open))
  {
    InitInv(listen);
    RunInv(Init(listen), run);
    var s := Exec(Init(listen), run);
    InvAgree(s);
    forall id: ConnId | id < |s.fdOf|
      ensures && (Closed in s.traces[id] <==> !Registered(s, id))
              && (Referenced(s, id) <==> s.fdOf[id] in s.open && s.open[s.fdOf[id]] == Connection(id))
              && (Pending(s, id) ==> s.fdOf[id] !in s.open)
    {
      assert TraceOk(s, id) && ConnOk(s, id);
    }
  }

  /** The last reference of no connection dies on a worker thread, and workers open no descriptors. */
  predicate LoopOnly(s: State, a: Action)
    requires Enabled(s, a)
  {
    && !a.OpenForeign?
    && (a.Release? ==> Do(s, a).dyingElsewhere == s.dyingElsewhere)
  }

  predicate LoopOnlyRun(s: State, run: seq<Action>)
    requires Legal(s, run)
    decreases |run|
  {
    run == [] || (LoopOnly(s, run[0]) && LoopOnlyRun(Do(s, run[0]), run[1..]))
  }

  lemma LoopOnlyStep(s: State, a: Action)
    requires Enabled(s, a) && LoopOnly(s, a) && s.dyingElsewhere == {}
    ensures Careful(s, a) && Do(s, a).dyingElsewhere == {}
  {}

  /** If connections die on the loop thread only, no number is ever reused between its two close() calls. */
  lemma {:induction false} LoopThreadIsCareful(s: State, run: seq<Action>)
    requires Legal(s, run) && LoopOnlyRun(s, run) && s.dyingElsewhere == {}
    ensures CarefulRun(s, run)
    decreases |run|
  {
    if run == [] {
    } else {
      LoopOnlyStep(s, run[0]);
      LoopThreadIsCareful(Do(s, run[0]), run[1..]);
    }
  }

  /** What the second close() of the loop thread can hit. */
  predicate LoopSpares(s: State) {
    s.dying.Some? ==>
      s.dying.value < |s.fdOf| &&
      var fd := s.fdOf[s.dying.value]; fd in s.open ==> s.open[fd] == Foreign
  }

  lemma LoopSparesStep(s: State, a: Action)
    requires LoopSpares(s) && Enabled(s, a)
    ensures LoopSpares(Do(s, a))
  {}

  /**
   In every run without any condition, also when numbers are reused and when connections die on workers: the second
   close() of the loop thread never closes the descriptor of a connection, because the loop thread accepts nothing in
   between.
   */
  lemma {:induction false} LoopThreadSparesConnections(s: State, run: seq<Action>)
    requires LoopSpares(s) && Legal(s, run)
    ensures LoopSpares(Exec(s, run))
    decreases |run|
  {
    if run == [] {
    } else {
      LoopSparesStep(s, run[0]);
      LoopThreadSparesConnections(Do(s, run[0]), run[1..]);
    }
  }

  // ---------- When a number is reused ----------

  lemma FinishReleaseEnabled(s: State, fd: Fd, id: ConnId)
    requires Inv(s) && fd !in s.open && id in s.dyingElsewhere
    ensures Enabled(Accepted(s, fd), FinishRelease(id))
  {
    assert Pending(s, id);
    FreeIsUnregistered(s, fd);
  }

  /** The late close() of a dead connection closes the live one that has got its number. */
  lemma StrayClose(s: State, fd: Fd, id: ConnId)
    requires Inv(s) && fd !in s.open && id in s.dyingElsewhere && id < |s.fdOf| && s.fdOf[id] == fd
    ensures Enabled(Accepted(s, fd), FinishRelease(id))
    ensures var e := Do(Accepted(s, fd), FinishRelease(id));
            fd in e.conns && fd !in e.open && fd !in e.interest && !Agree(e)
  {
    FinishReleaseEnabled(s, fd, id);
    FreeIsUnregistered(s, fd);
    AcceptedBasic(s, fd);
    var s1 := Accepted(s, fd);
    OtherBasic(s1, FinishRelease(id));
    var e := Do(s1, FinishRelease(id));
    assert EntryOk(e, fd);
  }

  /**
   After a run that has reused no number: the late close() calls that are still to come leave the registry in agreement
   if and only if none of them is for the number that accept returned.
   */
  lemma LateCloseIsSafe(s: State, fd: Fd)
    requires Inv(s) && Enabled(s, NewConnection(Some(fd)))
    ensures (forall id: ConnId | id in s.dyingElsewhere :: Enabled(Accepted(s, fd), FinishRelease(id)))
    ensures Careful(s, NewConnection(Some(fd)))
       <==> (forall id: ConnId | id in s.dyingElsewhere :: Agree(Do(Accepted(s, fd), FinishRelease(id))))
  {
    forall id: ConnId | id in s.dyingElsewhere ensures Enabled(Accepted(s, fd), FinishRelease(id)) {
      FinishReleaseEnabled(s, fd, id);
    }
    if Reusable(s, fd) {
      AcceptedInv(s, fd);
      forall id: ConnId | id in s.dyingElsewhere ensures Agree(Do(Accepted(s, fd), FinishRelease(id))) {
        FinishInv(Accepted(s, fd), FinishRelease(id));
        InvAgree(Do(Accepted(s, fd), FinishRelease(id)));
      }
    } else {
      var id: ConnId :| id < |s.fdOf| && Pending(s, id) && s.fdOf[id] == fd;
      assert id in s.dyingElsewhere;
      StrayClose(s, fd, id);
    }
  }

  // ---------- When accepting a connection is safe, in any state ----------

  /** Connection id is registered under fd, and fd is open and its own. */
  predicate OwnedBy(s: State, fd: Fd, id: ConnId) {
    fd in s.conns && s.conns[fd] == id && fd in s.open && s.open[fd] == Connection(id)
  }

  /**
   Nobody has a reason to close this number: no other thread takes it for a file of its own, no connection that had it
   is still referred to, and no second close() of a worker is to come.
   */
  ghost predicate Unthreatened(s: State, fd: Fd) {
    && fd !in s.foreign
    && forall j: ConnId | j < |s.fdOf| && s.fdOf[j] == fd :: !Referenced(s, j) && j !in s.dyingElsewhere
  }

  /** The same, once connection id owns the number. */
  ghost predicate Guarded(s: State, fd: Fd, id: ConnId) {
    && id < |s.fdOf| && s.fdOf[id] == fd && OwnedBy(s, fd, id) && fd !in s.foreign && !Pending(s, id)
    && forall j: ConnId | j < |s.fdOf| && j != id && s.fdOf[j] == fd :: j !in s.refs && !Pending(s, j)
  }

  lemma AcceptedGuarded(s: State, fd: Fd)
    requires Basic(s) && Enabled(s, NewConnection(Some(fd))) && Unthreatened(s, fd)
    ensures Guarded(Accepted(s, fd), fd, |s.fdOf|)
  {
    assert EntryOk(s, fd);
    forall j: ConnId | j < |s.fdOf| && s.fdOf[j] == fd
      ensures !Registered(s, j) && j !in s.refs && !Pending(s, j)
    {
      assert !Referenced(s, j);
    }
    assert fd !in s.conns;
  }

  /** After a run that has reused no number, only a late close() threatens a number that is not open. */
  lemma CarefulIsUnthreatened(s: State, fd: Fd)
    requires Inv(s) && Enabled(s, NewConnection(Some(fd)))
    ensures Careful(s, NewConnection(Some(fd))) <==> Unthreatened(s, fd)
  {
    assert FdOk(s, fd);
    forall j: ConnId | j < |s.fdOf| && s.fdOf[j] == fd
      ensures !Referenced(s, j) && (Pending(s, j) <==> j in s.dyingElsewhere)
    {
      assert ConnOk(s, j);
    }
  }

  lemma AcceptKeepsGuard(s: State, g: Fd, fd: Fd, id: ConnId)
    requires Basic(s) && Guarded(s, fd, id) && g !in s.open && s.dying == None
    ensures Guarded(Accepted(s, g), fd, id)
  {
    assert EntryOk(s, g);
  }

  lemma MessageKeepsGuard(s: State, g: Fd, closed: bool, task: bool, fd: Fd, id: ConnId)
    requires Basic(s) && Guarded(s, fd, id) && (g == fd ==> !closed) && s.dying == None
    ensures Guarded(Handled(s, g, closed, task), fd, id)
  {
    assert EntryOk(s, g);
  }

  lemma ReleaseKeepsGuard(s: State, c: ConnId, fd: Fd, id: ConnId)
    requires Basic(s) && Guarded(s, fd, id) && c in s.refs
    ensures Guarded(Released(s, c), fd, id)
  {}

  lemma OtherKeepsGuard(s: State, a: Action, fd: Fd, id: ConnId)
    requires Basic(s) && Guarded(s, fd, id) && Enabled(s, a)
    requires !a.NewConnection? && !a.HandleMessage? && !a.Release?
    ensures Guarded(Do(s, a), fd, id)
  {}

  /** The close callback of the connection on this number is not fired. */
  predicate KeepsOpen(run: seq<Action>, fd: Fd) {
    forall a | a in run :: !(a.HandleMessage? && a.fd == fd && a.closed)
  }

  lemma {:induction false} GuardedRun(s: State, run: seq<Action>, fd: Fd, id: ConnId)
    requires Basic(s) && Guarded(s, fd, id) && Legal(s, run) && KeepsOpen(run, fd)
    ensures OwnedBy(Exec(s, run), fd, id)
    decreases |run|
  {
    if run == [] {
    } else {
      var a := run[0];
      assert a in run;
      BasicStep(s, a);
      match a {
        case NewConnection(accepted) => if accepted.Some? { AcceptKeepsGuard(s, accepted.value, fd, id); }
        case HandleMessage(g, closed, task) => MessageKeepsGuard(s, g, closed, task, fd, id);
        case Release(c) => ReleaseKeepsGuard(s, c, fd, id);
        case _ => OtherKeepsGuard(s, a, fd, id);
      }
      GuardedRun(Do(s, a), run[1..], fd, id);
    }
  }

  lemma OneStep(s: State, a: Action)
    requires Enabled(s, a)
    ensures Legal(s, [a]) && Exec(s, [a]) == Do(s, a)
  {
    var none: seq<Action> := [];
    assert [a][1..] == none;
    assert Legal(Do(s, a), none) && Exec(Do(s, a), none) == Do(s, a);
  }

  /** When the last of its references is released, an unregistered connection closes its number. */
  lemma {:induction false} ReleaseAll(s: State, j: ConnId) returns (run: seq<Action>)
    requires j < |s.fdOf| && j in s.refs && !Registered(s, j)
    ensures Legal(s, run) && KeepsOpen(run, s.fdOf[j]) && s.fdOf[j] !in Exec(s, run).open
    decreases s.refs[j]
  {
    var s1 := Do(s, Release(j));
    if s.refs[j] == 1 {
      run := [Release(j)];
      OneStep(s, Release(j));
    } else {
      var rest := ReleaseAll(s1, j);
      run := [Release(j)] + rest;
      assert run[1..] == rest;
    }
  }

  /** The entry that the new connection replaces is destroyed, and closes the number at once. */
  lemma LastReferenceDies(s: State, fd: Fd, j: ConnId)
    requires Basic(s) && fd !in s.open && j < |s.fdOf| && s.fdOf[j] == fd && Registered(s, j) && j !in s.refs
    ensures fd !in Accepted(s, fd).open
  {}

  /** Otherwise the number can be closed under the new connection. */
  lemma ThreatenedRun(s: State, fd: Fd) returns (run: seq<Action>)
    requires Basic(s) && Enabled(s, NewConnection(Some(fd))) && !Unthreatened(s, fd)
    ensures Legal(Accepted(s, fd), run) && KeepsOpen(run, fd)
    ensures !OwnedBy(Exec(Accepted(s, fd), run), fd, |s.fdOf|)
  {
    var s1 := Accepted(s, fd);
    if fd in s.foreign {
      run := [CloseForeign(fd)];
      OneStep(s1, CloseForeign(fd));
    } else {
      var j: ConnId :| j < |s.fdOf| && s.fdOf[j] == fd && (Referenced(s, j) || j in s.dyingElsewhere);
      if j in s.dyingElsewhere {
        run := [FinishRelease(j)];
        OneStep(s1, FinishRelease(j));
      } else if j in s.refs {
        run := ReleaseAll(s1, j);
      } else {
        LastReferenceDies(s, fd, j);
        run := [];
      }
    }
  }

  /** In every continuation the connection keeps its descriptor until its close callback. */
  ghost predicate StaysOwned(s: State, fd: Fd, id: ConnId) {
    forall run | Legal(s, run) && KeepsOpen(run, fd) :: OwnedBy(Exec(s, run), fd, id)
  }

  /**
   Exactly when accepting a connection is safe, in every state that any run can reach, careful or not: in every
   continuation the connection keeps its descriptor until its close callback, if and only if nobody had a reason to
   close this number when accept returned it.
  */
  lemma AcceptIsSafe(listen: Fd, before: seq<Action>, fd: Fd)
    requires Legal(Init(listen), before) && Enabled(Exec(Init(listen), before), NewConnection(Some(fd)))
    ensures var s := Exec(Init(listen), before); Unthreatened(s, fd) <==> StaysOwned(Accepted(s, fd), fd, |s.fdOf|)
  {
    var s := Exec(Init(listen), before);
    var s1 := Accepted(s, fd);
    BasicInit(listen);
    BasicRun(Init(listen), before);
    if Unthreatened(s, fd) {
      AcceptedBasic(s, fd);
      AcceptedGuarded(s, fd);
      forall run | Legal(s1, run) && KeepsOpen(run, fd) ensures OwnedBy(Exec(s1, run), fd, |s.fdOf|) {
        GuardedRun(s1, run, fd, |s.fdOf|);
      }
    } else {
      var run := ThreatenedRun(s, fd);
    }
  }

  ghost predicate Reachable(listen: Fd, s: State) {
    exists run :: Legal(Init(listen), run) && Exec(Init(listen), run) == s
  }

  lemma {:induction false} ExecAppend(s: State, run: seq<Action>, a: Action)
    requires Legal(s, run) && Enabled(Exec(s, run), a)
    ensures Legal(s, run + [a]) && Exec(s, run + [a]) == Do(Exec(s, run), a)
    decreases |run|
  {
    if run == [] {
      assert run + [a] == [a];
    } else {
      ExecAppend(Do(s, run[0]), run[1..], a);
      assert (run + [a])[1..] == run[1..] + [a];
    }
  }

  lemma ReachableStep(listen: Fd, s: State, a: Action)
    requires Reachable(listen, s) && Enabled(s, a)
    ensures Reachable(listen, Do(s, a))
  {
    var run :| Legal(Init(listen), run) && Exec(Init(listen), run) == s;
    ExecAppend(Init(listen), run, a);
    assert Legal(Init(listen), run + [a]);
  }

  lemma Advance(listen: Fd, s: State, a: Action) returns (s': State)
    requires Reachable(listen, s) && Inv(s) && Enabled(s, a) && Careful(s, a)
    ensures Reachable(listen, s') && Inv(s') && s' == Do(s, a)
  {
    ReachableStep(listen, s, a);
    StepInv(s, a);
    s' := Do(s, a);
  }

  lemma PeerHasClosed(listen: Fd, fd: Fd) returns (s: State)
    requires fd != listen
    ensures Reachable(listen, s) && Inv(s) && s.fdOf == [fd] && fd !in s.conns && s.refs == multiset{0}
    ensures s.dying == None && s.dyingElsewhere == {} && s.open == map[listen := Listener, fd := Connection(0)]
    ensures s.foreign == {} && s.conns == map[]
  {
    s := Init(listen);
    InitInv(listen);
    var none: seq<Action> := [];
    assert Legal(s, none) && Exec(s, none) == s;
    s := Advance(listen, s, NewConnection(Some(fd)));
    s := Advance(listen, s, HandleMessage(fd, false, true));   // the callback hands a reference to a task
    s := Advance(listen, s, HandleMessage(fd, true, false));   // the peer has closed the connection
  }

  lemma LateDeath(listen: Fd, fd: Fd) returns (s: State)
    requires fd != listen
    ensures Reachable(listen, s) && Inv(s) && s.foreign == {}
    ensures s.dyingElsewhere == {0} && s.fdOf == [fd] && fd !in s.open && s.dying == None && s.conns == map[]
  {
    s := PeerHasClosed(listen, fd);
    s := Advance(listen, s, Release(0));                       // the task has run; the worker calls close() once
  }

  /**
   It occurs, for every number: the last reference dies on a worker, accept returns the number between the two close()
   calls, and the new connection is registered, but its descriptor is closed and no longer watched.
   */
  lemma StrayCloseIsReachable(listen: Fd, fd: Fd)
    requires fd != listen
    ensures exists s :: Reachable(listen, s) && fd in s.conns && fd !in s.open && fd !in s.interest
  {
    var s := LateDeath(listen, fd);
    StrayClose(s, fd, 0);
    ReachableStep(listen, s, NewConnection(Some(fd)));
    ReachableStep(listen, Accepted(s, fd), FinishRelease(0));
  }

  /**
   The window outlives the late close().  A worker opens a file under the number, and the late close() closes it; now no
   close() is pending and the tables agree, but the worker will close its file.  If accept returns the number before
   that, the new connection loses its descriptor.
   */
  lemma LostFileIsReachable(listen: Fd, fd: Fd)
    requires fd != listen
    ensures exists s ::
              && Reachable(listen, s) && Agree(s) && s.dying == None && s.dyingElsewhere == {} && fd in s.foreign
              && Enabled(s, NewConnection(Some(fd))) && Careful(s, NewConnection(Some(fd)))
              && Enabled(Accepted(s, fd), CloseForeign(fd))
              && var e := Do(Accepted(s, fd), CloseForeign(fd));
              fd in e.conns && fd !in e.open && fd !in e.interest
  {
    var s0 := LateDeath(listen, fd);
    var s1 := Do(s0, OpenForeign(fd));
    ReachableStep(listen, s0, OpenForeign(fd));
    BasicStep(s0, OpenForeign(fd));
    var s := Do(s1, FinishRelease(0));
    ReachableStep(listen, s1, FinishRelease(0));
    BasicStep(s1, FinishRelease(0));
    InterestIsOwned(s);
    BasicStep(s, NewConnection(Some(fd)));
    BasicStep(Accepted(s, fd), CloseForeign(fd));
    InterestIsOwned(Do(Accepted(s, fd), CloseForeign(fd)));
    assert Reachable(listen, s) && fd in s.foreign;
  }

  /**
   It occurs on the loop thread, for every number: the close callback has dropped the last reference, another thread
   opens a file under the number between the two close() calls, and the loop's second close() closes the file.
   */
  lemma LoopClosesAFile(listen: Fd, fd: Fd)
    requires fd != listen
    ensures exists s :: Reachable(listen, s) && fd in s.foreign && fd in s.open && s.open[fd] == Foreign
                        && Enabled(s, FinishClose) && fd !in Do(s, FinishClose).open
  {
    var s := Init(listen);
    InitInv(listen);
    var none: seq<Action> := [];
    assert Legal(s, none) && Exec(s, none) == s;
    s := Advance(listen, s, NewConnection(Some(fd)));
    s := Advance(listen, s, HandleMessage(fd, true, false));
    assert s.dying == Some(0) && s.fdOf == [fd];
    ReachableStep(listen, s, OpenForeign(fd));
    assert fd in Do(s, OpenForeign(fd)).foreign;
  }

  /** The same window exists on the loop thread for descriptors of other threads: their file is closed under them. */
  lemma StrayCloseOfAFile(s: State, fd: Fd, id: ConnId)
    requires Inv(s) && fd !in s.open && Pending(s, id) && s.fdOf[id] == fd
    ensures var held := Do(s, OpenForeign(fd));
            fd in held.foreign && held.open[fd] == Foreign && fd !in Close(held, held.fdOf[id]).open
  {}

}
