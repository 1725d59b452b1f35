/** EventLoop.cc in imperative form, proved against the steps of the connection registry. */
module EventLoops {
  import opened Options
  import opened Registry

  // ---------- One batch of events, as a function ----------

  /** An event of epoll_wait, with what accept, isClosed and the message callback will do if it is handled. */
  datatype Event = Event(fd: Fd, epollin: bool, offer: Option<Fd>, closed: bool, task: bool)

  /** What epoll_wait returns. */
  datatype Wait = Eintr | Failed | Ready(events: seq<Event>)

  /** accept returns a number that is not open, or fails. */
  function Answer(s: State, offer: Option<Fd>): Option<Fd> {
    if offer.Some? && offer.value !in s.open then offer else None
  }

  /** recv on a descriptor that is not open fails and does not report the end of the stream. */
  function ActionOf(s: State, e: Event): Action {
    if e.fd == s.listen then NewConnection(Answer(s, e.offer))
    else HandleMessage(e.fd, e.closed && e.fd in s.open, e.task)
  }

  /** The loop thread goes on to its second close() if it has begun to destroy a connection. */
  function Settled(s: State): State {
    if s.dying.Some? && s.dying.value < |s.fdOf| then Do(s, FinishClose) else s
  }

  /** One turn of the for loop of waitEpollFd. */
  function HandleEvent(s: State, e: Event): State
    requires s.dying == None
  {
    if e.epollin then Settled(Do(s, ActionOf(s, e))) else s
  }

  lemma Settles(s: State, e: Event)
    requires s.dying == None
    ensures HandleEvent(s, e).dying == None
  {}

  function Dispatch(s: State, events: seq<Event>): State
    requires s.dying == None
    decreases |events|
  {
    if events == [] then s
    else
      Settles(s, events[0]);
      Dispatch(HandleEvent(s, events[0]), events[1..])
  }

  /** epoll_wait was interrupted until result k. */
  predicate FirstResult(results: seq<Wait>, k: nat) {
    k < |results| && !results[k].Eintr? && forall j | 0 <= j < k :: results[j].Eintr?
  }

  /** A new entry, and the end of the connection that was in its place, if that was the last reference. */
  function SettledEntry(s: State, fd: Fd): State {
    if fd in s.conns && s.conns[fd] < |s.fdOf| then Settled(Dropped(Entered(s, fd), s.conns[fd])) else Entered(s, fd)
  }

  /** The order of the connect callback and a second close() does not matter. */
  lemma SettledAccepted(s: State, fd: Fd)
    requires s.dying == None
    ensures Settled(Accepted(s, fd)) == Fire(SettledEntry(s, fd), |s.fdOf|, Connected)
  {}

  // ---------- A batch is a run of the registry ----------

  function Actions(s: State, events: seq<Event>): seq<Action>
    requires s.dying == None
    decreases |events|
  {
    if events == [] then []
    else
      Settles(s, events[0]);
      var e := events[0];
      (if !e.epollin then []
       else if Do(s, ActionOf(s, e)).dying == None then [ActionOf(s, e)]
       else [ActionOf(s, e), FinishClose]) + Actions(HandleEvent(s, e), events[1..])
  }

  lemma PrependOne(s: State, a: Action, rest: seq<Action>)
    requires Enabled(s, a) && Legal(Do(s, a), rest)
    ensures Legal(s, [a] + rest) && Exec(s, [a] + rest) == Exec(Do(s, a), rest)
    ensures LoopOnly(s, a) && LoopOnlyRun(Do(s, a), rest) ==> LoopOnlyRun(s, [a] + rest)
  {
    assert ([a] + rest)[1..] == rest;
  }

  lemma BeginsToDie(s: State, e: Event)
    requires s.dying == None && Do(s, ActionOf(s, e)).dying.Some?
    ensures Enabled(Do(s, ActionOf(s, e)), FinishClose)
  {}

  /**
   Handling a batch of any events, from any state, is a run of the registry, stale events and unknown descriptors
   included; in it connections die on the loop thread only.
   */
  lemma {:induction false} BatchIsRun(s: State, events: seq<Event>)
    requires s.dying == None
    ensures var run := Actions(s, events);
            Legal(s, run) && Exec(s, run) == Dispatch(s, events) && LoopOnlyRun(s, run)
    decreases |events|
  {
    if events == [] {
    } else {
      var e := events[0];
      Settles(s, e);
      var s1 := HandleEvent(s, e);
      BatchIsRun(s1, events[1..]);
      var rest := Actions(s1, events[1..]);
      if !e.epollin {
        assert [] + rest == rest;
      } else {
        var a := ActionOf(s, e);
        if Do(s, a).dying == None {
          PrependOne(s, a, rest);
        } else {
          BeginsToDie(s, e);
          PrependOne(Do(s, a), FinishClose, rest);
          PrependOne(s, a, [FinishClose] + rest);
          assert [a, FinishClose] + rest == [a] + ([FinishClose] + rest);
        }
      }
    }
  }

  /** accept returns no number on which a second close() of a worker is still to come. */
  predicate Unclaimed(s: State, e: Event) {
    forall id: ConnId | id in s.dyingElsewhere && id < |s.fdOf| :: e.offer != Some(s.fdOf[id])
  }

  lemma UnclaimedIsCareful(s: State, e: Event)
    requires s.dying == None && Unclaimed(s, e)
    ensures Careful(s, ActionOf(s, e))
  {}

  /** The claims of workers on numbers stay as they are. */
  predicate KeepsClaims(s: State, s': State) {
    s'.dyingElsewhere == s.dyingElsewhere && s.fdOf <= s'.fdOf
  }

  lemma ActionKeepsClaims(s: State, a: Action)
    requires Enabled(s, a) && (a.NewConnection? || a.HandleMessage?)
    ensures KeepsClaims(s, Do(s, a))
  {}

  lemma SettledKeepsClaims(s: State)
    ensures KeepsClaims(s, Settled(s))
  {}

  lemma EventKeepsClaims(s: State, e: Event)
    requires s.dying == None
    ensures KeepsClaims(s, HandleEvent(s, e))
  {
    if e.epollin {
      ActionKeepsClaims(s, ActionOf(s, e));
      SettledKeepsClaims(Do(s, ActionOf(s, e)));
    }
  }

  lemma EventKeepsInv(s: State, e: Event)
    requires Inv(s) && s.dying == None && Unclaimed(s, e)
    ensures Inv(HandleEvent(s, e))
  {
    if e.epollin {
      UnclaimedIsCareful(s, e);
      StepInv(s, ActionOf(s, e));
      if Do(s, ActionOf(s, e)).dying.Some? {
        BeginsToDie(s, e);
        StepInv(Do(s, ActionOf(s, e)), FinishClose);
      }
    }
  }

  lemma {:induction false} BatchKeepsInv(s: State, events: seq<Event>)
    requires Inv(s) && s.dying == None && forall e | e in events :: Unclaimed(s, e)
    ensures Inv(Dispatch(s, events))
    decreases |events|
  {
    if events == [] {
    } else {
      Settles(s, events[0]);
      EventKeepsInv(s, events[0]);
      EventKeepsClaims(s, events[0]);
      var s1 := HandleEvent(s, events[0]);
      forall e | e in events[1..] ensures Unclaimed(s1, e) {
        assert e in events && Unclaimed(s, e) && RangeOk(s);
      }
      BatchKeepsInv(s1, events[1..]);
    }
  }

  /**
   After every event of a batch the interest set is the listening descriptor plus the keys of _conns, also while workers
   are between their close() calls, as long as accept does not return one of their numbers.
   */
  lemma AgreementAfterEveryEvent(s: State, events: seq<Event>, n: nat)
    requires Inv(s) && s.dying == None && n <= |events| && forall e | e in events :: Unclaimed(s, e)
    ensures Agree(Dispatch(s, events[..n]))
  {
    forall e | e in events[..n] ensures Unclaimed(s, e) { assert e in events; }
    BatchKeepsInv(s, events[..n]);
    InvAgree(Dispatch(s, events[..n]));
  }

  /**
   Without any condition on the numbers: after every event the interest set is the listening descriptor and the
   registered descriptors that are still their connection's own.
   */
  lemma InterestAfterEveryEvent(s: State, events: seq<Event>, n: nat)
    requires Basic(s) && s.dying == None && n <= |events|
    ensures var e := Dispatch(s, events[..n]); forall fd: Fd :: fd in e.interest <==> fd == e.listen || Owned(e, fd)
  {
    BatchIsRun(s, events[..n]);
    BasicRun(s, Actions(s, events[..n]));
    InterestIsOwned(Dispatch(s, events[..n]));
  }

  // ---------- What every event does ----------

  /** What the loop thread leaves alone */
  predicate KeepsRest(s: State, s': State) {
    s'.listen == s.listen && s'.foreign == s.foreign && s'.dying == None && s'.dyingElsewhere == s.dyingElsewhere
  }

  /**
   A connection has been accepted.  If there is an entry under its number, and nobody else holds that connection, its
   destructor closes the number again.
   */
  predicate AcceptEffect(s: State, fd: Fd, s': State) {
    && KeepsRest(s, s') && s'.refs == s.refs
    && s'.fdOf == s.fdOf + [fd] && s'.traces == s.traces + [[Connected]] && s'.conns == s.conns[fd := |s.fdOf|]
    && (if fd in s.conns && s.conns[fd] !in s.refs then
          s'.open == s.open && s'.interest == s.interest
        else
          s'.open == s.open[fd := Connection(|s.fdOf|)] && s'.interest == s.interest + {fd})
  }

  /** Connection id has got a callback. */
  predicate CallbackEffect(s: State, id: ConnId, c: Callback, s': State) {
    && KeepsRest(s, s') && s'.fdOf == s.fdOf && |s'.traces| == |s.traces|
    && id < |s.traces| && s'.traces[id] == s.traces[id] + [c]
    && (forall j | 0 <= j < |s.traces| && j != id :: s'.traces[j] == s.traces[j])
  }

  /** What one event does: nothing, unless it is readable and for the listening or a registered descriptor. */
  predicate EventEffect(s: State, e: Event, s': State) {
    if !e.epollin then s' == s
    else if e.fd == s.listen then
      if e.offer.Some? && e.offer.value !in s.open then AcceptEffect(s, e.offer.value, s') else s' == s
    else if e.fd !in s.conns then s' == s
    else
      var id := s.conns[e.fd];
      if e.closed && e.fd in s.open then
        && CallbackEffect(s, id, Closed, s')
        && s'.conns == s.conns - {e.fd} && s'.interest == s.interest - {e.fd} && s'.refs == s.refs
        && s'.open == if id in s.refs then s.open else s.open - {e.fd}
      else
        && CallbackEffect(s, id, Message, s')
        && s'.conns == s.conns && s'.interest == s.interest && s'.open == s.open
        && s'.refs == if e.task then s.refs + multiset{id} else s.refs
  }

  lemma AcceptHasEffect(s: State, fd: Fd)
    requires Basic(s) && s.dying == None && fd !in s.open
    ensures AcceptEffect(s, fd, Settled(Accepted(s, fd)))
  {
    AcceptedFires(s, fd, 0);
    assert EntryOk(s, fd);
    SettledAccepted(s, fd);
  }

  lemma HandledHasEffect(s: State, e: Event)
    requires Basic(s) && s.dying == None && e.epollin && e.fd != s.listen
    ensures EventEffect(s, e, Settled(Handled(s, e.fd, e.closed && e.fd in s.open, e.task)))
  {
    assert EntryOk(s, e.fd);
  }

  lemma EventHasEffect(s: State, e: Event)
    requires Basic(s) && s.dying == None
    ensures EventEffect(s, e, HandleEvent(s, e)) && Basic(HandleEvent(s, e))
  {
    if e.epollin {
      var a := ActionOf(s, e);
      BasicStep(s, a);
      if Do(s, a).dying.Some? {
        BeginsToDie(s, e);
        BasicStep(Do(s, a), FinishClose);
      }
      if e.fd != s.listen {
        HandledHasEffect(s, e);
      } else if a.accepted.Some? {
        AcceptHasEffect(s, a.accepted.value);
      }
    }
  }

  lemma Prefixes(events: seq<Event>, k: nat)
    requires 0 < k < |events|
    ensures events[..k] == [events[0]] + events[1..][..k - 1]
    ensures events[..k + 1] == [events[0]] + events[1..][..k]
    ensures events[k] == events[1..][k - 1]
  {}

  lemma DispatchFirst(s: State, e: Event, rest: seq<Event>)
    requires s.dying == None
    ensures HandleEvent(s, e).dying == None && Dispatch(s, [e] + rest) == Dispatch(HandleEvent(s, e), rest)
  {
    Settles(s, e);
    assert ([e] + rest)[1..] == rest;
  }

  lemma {:induction false} DispatchPrefix(s: State, events: seq<Event>, k: nat)
    requires Basic(s) && s.dying == None && k < |events|
    ensures var before := Dispatch(s, events[..k]);
            Basic(before) && before.dying == None && Dispatch(s, events[..k + 1]) == HandleEvent(before, events[k])
    decreases k
  {
    EventHasEffect(s, events[0]);
    var s1 := HandleEvent(s, events[0]);
    if k == 0 {
      DispatchFirst(s, events[0], []);
      assert events[..1] == [events[0]] + [] && Dispatch(s1, []) == s1;
    } else {
      Prefixes(events, k);
      DispatchFirst(s, events[0], events[1..][..k - 1]);
      DispatchFirst(s, events[0], events[1..][..k]);
      DispatchPrefix(s1, events[1..], k - 1);
    }
  }

  /** Every event of a batch is acted on, in the state that the events before it have left. */
  lemma EveryEventActs(s: State, events: seq<Event>, k: nat)
    requires Basic(s) && s.dying == None && k < |events|
    ensures EventEffect(Dispatch(s, events[..k]), events[k], Dispatch(s, events[..k + 1]))
    ensures Dispatch(s, events[..0]) == s && Dispatch(s, events[..|events|]) == Dispatch(s, events)
  {
    DispatchPrefix(s, events, k);
    EventHasEffect(Dispatch(s, events[..k]), events[k]);
    assert events[..|events|] == events;
  }

  /** Event k of a batch is readable and for connection id, and the peer is gone or not. */
  predicate IsFor(s: State, e: Event, id: ConnId, closed: bool) {
    && e.epollin && e.fd != s.listen && e.fd in s.conns && s.conns[e.fd] == id
    && (closed <==> e.closed && e.fd in s.open)
  }

  function EventsFor(s: State, events: seq<Event>, id: ConnId, closed: bool): nat
    requires s.dying == None
    decreases |events|
  {
    if events == [] then 0
    else
      Settles(s, events[0]);
      (if IsFor(s, events[0], id, closed) then 1 else 0)
      + EventsFor(HandleEvent(s, events[0]), events[1..], id, closed)
  }

  lemma EventFires(s: State, e: Event, id: ConnId, s': State)
    requires EventEffect(s, e, s')
    ensures Fired(s', id, Message) == Fired(s, id, Message) + if IsFor(s, e, id, false) then 1 else 0
    ensures Fired(s', id, Closed) == Fired(s, id, Closed) + if IsFor(s, e, id, true) then 1 else 0
  {
    if IsFor(s, e, id, false) || IsFor(s, e, id, true) {
      var x := if IsFor(s, e, id, true) then Closed else Message;
      CountAppend(s.traces[id], x, Message);
      CountAppend(s.traces[id], x, Closed);
    }
    assert multiset([Connected])[Message] == 0 && multiset([Connected])[Closed] == 0;
  }

  /**
   A batch calls back exactly: one message for each readable event of the connection that finds the peer open, one close
   for each that does not.
   */
  lemma {:induction false} BatchCallsBack(s: State, events: seq<Event>, id: ConnId)
    requires Basic(s) && s.dying == None
    ensures Fired(Dispatch(s, events), id, Message) == Fired(s, id, Message) + EventsFor(s, events, id, false)
    ensures Fired(Dispatch(s, events), id, Closed) == Fired(s, id, Closed) + EventsFor(s, events, id, true)
    decreases |events|
  {
    if events == [] {
    } else {
      EventHasEffect(s, events[0]);
      Settles(s, events[0]);
      EventFires(s, events[0], id, HandleEvent(s, events[0]));
      BatchCallsBack(HandleEvent(s, events[0]), events[1..], id);
    }
  }

  // ---------- The class ----------

  /** The process around the event loop: descriptors, interest set, and the connections that are alive. */
  class Process {
    var interest: set<Fd>
    var open: map<Fd, Owner>
    var foreign: set<Fd>
    var refs: multiset<ConnId>
    var dyingElsewhere: set<ConnId>
    var fdOf: seq<Fd>
    var traces: seq<seq<Callback>>

    constructor (listen: Fd)
      ensures interest == {} && open == map[listen := Listener] && foreign == {} && refs == multiset{}
      ensures dyingElsewhere == {} && fdOf == [] && traces == []
    {
      interest, open, foreign, refs := {}, map[listen := Listener], {}, multiset{};
      dyingElsewhere, fdOf, traces := {}, [], [];
    }

    method CloseFd(fd: Fd)
      modifies this`open, this`interest
      ensures fd in old(open) ==> open == old(open) - {fd} && interest == old(interest) - {fd}
      ensures fd !in old(open) ==> open == old(open) && interest == old(interest)
    {
      if fd in open {
        open := open - {fd};
        interest := interest - {fd};
      }
    }

    /** A callback of connection id is called. */
    method Call(id: ConnId, c: Callback)
      modifies this`traces
      ensures traces == if id < |old(traces)| then old(traces)[id := old(traces)[id] + [c]] else old(traces)
    {
      if id < |traces| {
        traces := traces[id := traces[id] + [c]];
      }
    }
  }

  class EventLoop {
    const listen: Fd
    const process: Process
    var conns: map<Fd, ConnId>

    /** Between two events the loop thread is not in the middle of anything. */
    function View(): State
      reads this, process
    {
      State(listen, process.interest, conns, process.open, process.foreign, process.refs, None,
            process.dyingElsewhere, process.fdOf, process.traces)
    }

    constructor (listen: Fd, process: Process)
      requires process.open == map[listen := Listener] && process.interest == {} && process.foreign == {}
      requires process.refs == multiset{} && process.dyingElsewhere == {} && process.fdOf == [] && process.traces == []
      modifies process`interest
      ensures this.listen == listen && this.process == process && View() == Init(listen)
    {
      this.listen, this.process, conns := listen, process, map[];
      new;
      AddEpollReadFd(listen);
    }

    method AddEpollReadFd(fd: Fd)
      modifies process`interest
      ensures process.interest == old(process.interest) + {fd}
    {
      process.interest := process.interest + {fd};
    }

    method DelEpollReadFd(fd: Fd)
      modifies process`interest
      ensures process.interest == old(process.interest) - {fd}
    {
      process.interest := process.interest - {fd};
    }

    /** A shared_ptr of the loop thread goes away; the destructor calls close() twice. */
    method Drop(id: ConnId)
      requires id < |process.fdOf|
      modifies process`open, process`interest
      ensures View() == Settled(Dropped(old(View()), id))
    {
      var fd := process.fdOf[id];
      if !(fd in conns && conns[fd] == id) && id !in process.refs {
        process.CloseFd(fd);     // ~Socket
        process.CloseFd(fd);     // ~SocketIO
      }
    }

    method HandleNewConnection(offer: Option<Fd>)
      modifies this`conns, process
      ensures View() == Settled(Do(old(View()), NewConnection(Answer(old(View()), offer))))
    {
      if offer == None || offer.value in process.open {
        return;
      }
      var connfd, id := offer.value, |process.fdOf|;
      SettledAccepted(View(), connfd);
      var before := Enter(connfd);
      if before < id {
        Drop(before);
      }
      process.Call(id, Connected);
    }

    /** accept, addEpollReadFd, new TcpConnection and the assignment to _conns[connfd]; what was in the entry before. */
    method Enter(connfd: Fd) returns (before: ConnId)
      modifies this`conns, process`open, process`interest, process`fdOf, process`traces
      ensures View() == Entered(old(View()), connfd)
      ensures before == if connfd in old(conns) then old(conns)[connfd] else old(|process.fdOf|)
    {
      var id := |process.fdOf|;
      before := if connfd in conns then conns[connfd] else id;
      process.open := process.open[connfd := Connection(id)];
      AddEpollReadFd(connfd);
      process.fdOf := process.fdOf + [connfd];
      process.traces := process.traces + [[]];
      conns := conns[connfd := id];
    }

    method HandleMessage(fd: Fd, closed: bool, task: bool)
      requires fd != listen && (closed ==> fd in process.open)
      modifies this`conns, process
      ensures View() == Settled(Do(old(View()), Action.HandleMessage(fd, closed, task)))
    {
      if fd in conns {
        var id := conns[fd];
        if closed {
          process.Call(id, Closed);
          DelEpollReadFd(fd);
          conns := conns - {fd};
          if id < |process.fdOf| {
            Drop(id);
          }
        } else {
          process.Call(id, Message);
          if task {
            process.refs := process.refs + multiset{id};
          }
        }
      }
    }

    /** Interrupted waits are retried; then every event of the batch is handled, none after a failure or a timeout. */
    method WaitEpollFd(results: seq<Wait>)
      modifies this`conns, process
      ensures forall k: nat | FirstResult(results, k) ::
                View() == if results[k].Ready? then Dispatch(old(View()), results[k].events) else old(View())
      ensures (forall j | 0 <= j < |results| :: results[j].Eintr?) ==> View() == old(View())
    {
      var k := 0;
      while k < |results| && results[k].Eintr?
        invariant k <= |results| && forall j | 0 <= j < k :: results[j].Eintr?
      {
        k := k + 1;
      }
      if k == |results| || results[k].Failed? {
        return;
      }
      var evtList := results[k].events;
      var idx := 0;
      while idx < |evtList|
        invariant idx <= |evtList|
        invariant Dispatch(View(), evtList[idx..]) == Dispatch(old(View()), evtList)
      {
        HandleOne(evtList[idx]);
        assert evtList[idx..][1..] == evtList[idx + 1..];
        idx := idx + 1;
      }
    }

    method HandleOne(e: Event)
      modifies this`conns, process
      ensures View() == HandleEvent(old(View()), e)
    {
      if e.fd == listen {
        if e.epollin {
          HandleNewConnection(e.offer);
        }
      } else {
        if e.epollin {
          HandleMessage(e.fd, e.closed && e.fd in process.open, e.task);
        }
      }
    }
  }

}
