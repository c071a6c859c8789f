/**
 Graceful shutdown: three listeners, a stop task, the joiner, and one task per connection, around two locks.

 `shutdown_lock` is held for writing by the stop task and polled for reading by the listeners, who give it back at
 once. `conn_lock` is held for reading by connection tasks while they serve, and wanted for writing by the joiner;
 a reader that comes after the waiting writer has to wait (both locks are fair).
 */
module Shutdown {
  datatype Proto = H1 | H2 | H3

  const ALL_PROTOS: set<Proto> := {H1, H2, H3}

  /** Why a listener task ended; `Crashed` stands for an error or a panic, `Closed` for a QUIC server that ended. */
  datatype Exit = ShutdownArm | Closed | Crashed

  datatype Listener = Running | Ended(why: Exit)

  datatype Listeners = Listeners(h1: Listener, h2: Listener, h3: Listener) {
    function Of(p: Proto): Listener {
      match p case H1 => h1 case H2 => h2 case H3 => h3
    }

    function With(p: Proto, l: Listener): (t: Listeners)
      ensures forall q :: t.Of(q) == if q == p then l else Of(q)
    {
      match p case H1 => this.(h1 := l) case H2 => this.(h2 := l) case H3 => this.(h3 := l)
    }
  }

  /** `Panicked`: the shutdown future panicked, and unwinding gave the lock back. */
  datatype StopTask = NotStarted | Holding | Resolved | Panicked | Aborted

  datatype Joiner = Joining | WantsWrite | Writing | Returned

  datatype ConnPhase = Spawned | Guarded | Done

  type ConnId = nat

  /**
   `conns` and `via` give phase and listener of every connection accepted so far; `requests` the request tasks that
   connections have spawned and that are still running, by connection.
   */
  datatype State = State(
    listeners: Listeners,
    stop: StopTask,
    joined: set<Proto>,
    joiner: Joiner,
    conns: seq<ConnPhase>,
    via: seq<Proto>,
    requests: multiset<ConnId>)

  datatype Event =
    | StopLocks
    | StopResolves
    | StopPanics
    | AbortLands
    | Accept(p: Proto)
    | LeaveByShutdown(p: Proto)
    | LeaveOtherwise(p: Proto, why: Exit)
    | Join(p: Proto)
    | AskWrite
    | TakeWrite
    | Return
    | TakeGuard(c: ConnId)
    | ConnEnds(c: ConnId)
    | SpawnRequest(c: ConnId)
    | RequestEnds(c: ConnId)

  const INIT := State(Listeners(Running, Running, Running), NotStarted, {}, Joining, [], [], multiset{})

  predicate ListenersEnded(s: State) {
    s.listeners.h1.Ended? && s.listeners.h2.Ended? && s.listeners.h3.Ended?
  }

  /** The listeners' read of `shutdown_lock` succeeds exactly when the stop task does not hold it. */
  predicate LockFree(s: State) {
    s.stop != Holding
  }

  /** Is the stop task over, and the lock free for good? */
  predicate StopOver(s: State) {
    s.stop in {Resolved, Panicked, Aborted}
  }

  /**
   Do connections of this protocol serve each request in a task of its own? The HTTP/3 listener spawns them itself, and
   hyper spawns one per HTTP/2 stream on the executor it is given. Neither holds the connection's guard.
   */
  predicate Spawns(p: Proto) {
    p != H1
  }

  predicate Enabled(s: State, e: Event) {
    match e
    case StopLocks => s.stop == NotStarted
    case StopResolves => s.stop == Holding
    case StopPanics => s.stop == Holding
    case AbortLands => s.stop in {NotStarted, Holding} && s.joined != {}
    case Accept(p) => s.listeners.Of(p).Running?
    case LeaveByShutdown(p) => s.listeners.Of(p).Running? && LockFree(s)
    case LeaveOtherwise(p, why) => s.listeners.Of(p).Running? && (why == Crashed || (why == Closed && p == H3))
    case Join(p) => s.joiner == Joining && s.listeners.Of(p).Ended? && p !in s.joined
    case AskWrite => s.joiner == Joining && s.joined == ALL_PROTOS
    case TakeWrite => s.joiner == WantsWrite && Guarded !in s.conns
    case Return => s.joiner == Writing
    case TakeGuard(c) => c < |s.conns| && s.conns[c] == Spawned && s.joiner in {Joining, Returned}
    case ConnEnds(c) => c < |s.conns| && s.conns[c] == Guarded
    case SpawnRequest(c) => c < |s.conns| && s.conns[c] == Guarded && c < |s.via| && Spawns(s.via[c])
    case RequestEnds(c) => c in s.requests
  }

  function Next(s: State, e: Event): State
    requires Enabled(s, e)
  {
    match e
    case StopLocks => s.(stop := Holding)
    case StopResolves => s.(stop := Resolved)
    case StopPanics => s.(stop := Panicked)
    case AbortLands => s.(stop := Aborted)
    case Accept(p) => s.(conns := s.conns + [Spawned], via := s.via + [p])
    case LeaveByShutdown(p) => s.(listeners := s.listeners.With(p, Ended(ShutdownArm)))
    case LeaveOtherwise(p, why) => s.(listeners := s.listeners.With(p, Ended(why)))
    case Join(p) => s.(joined := s.joined + {p})
    case AskWrite => s.(joiner := WantsWrite)
    case TakeWrite => s.(joiner := Writing)
    case Return => s.(joiner := Returned)
    case TakeGuard(c) => s.(conns := s.conns[c := Guarded])
    case ConnEnds(c) => s.(conns := s.conns[c := Done])
    case SpawnRequest(c) => s.(requests := s.requests + multiset{c})
    case RequestEnds(c) => s.(requests := s.requests - multiset{c})
  }

  predicate Steps(states: seq<State>, events: seq<Event>) {
    && |states| == |events| + 1
    && forall i {:trigger events[i]} | 0 <= i < |events| ::
         Enabled(states[i], events[i]) && states[i + 1] == Next(states[i], events[i])
  }

  predicate IsRun(states: seq<State>, events: seq<Event>) {
    Steps(states, events) && states[0] == INIT
  }

  // ---- Drain ---------------------------------------------------------------------------------------------------

  ghost predicate Inv(s: State) {
    && (forall p | p in s.joined :: s.listeners.Of(p).Ended?)
    && (s.joiner != Joining ==> s.joined == ALL_PROTOS)
    && (s.joiner == Writing ==> Guarded !in s.conns)
    && (s.stop == Aborted ==> s.joined != {})
  }

  lemma StepKeepsInv(s: State, e: Event)
    requires Inv(s) && Enabled(s, e)
    ensures Inv(Next(s, e))
  {
  }

  lemma {:induction false} RunInv(states: seq<State>, events: seq<Event>, i: nat)
    requires IsRun(states, events) && i < |states|
    ensures Inv(states[i])
    decreases i
  {
    if i > 0 {
      RunInv(states, events, i - 1);
      StepKeepsInv(states[i - 1], events[i - 1]);
    }
  }

  /**
   Drain safety: while `srv` holds the write guard all listeners have ended, and every connection that ever took its
   read guard is done. What is left is exactly what never took it.
   */
  lemma DrainIsSafe(states: seq<State>, events: seq<Event>, i: nat, j: nat, c: ConnId)
    requires IsRun(states, events) && i < |states| && states[i].joiner == Writing
    requires j <= i && c < |states[j].conns|
    ensures ListenersEnded(states[i])
    ensures c < |states[i].conns|
    ensures states[j].conns[c] != Spawned ==> states[i].conns[c] == Done
    ensures states[i].conns[c] == Spawned <==> TakeGuard(c) !in events[..i]
  {
    RunInv(states, events, i);
    ConnsOnlyAdvance(states, events, j, i, c);
    GuardIsRemembered(states, events, i, c);
  }

  predicate Served(s: State, c: ConnId) {
    c < |s.conns| && s.conns[c] != Spawned
  }

  lemma ServedAfter(s: State, e: Event, c: ConnId)
    requires Enabled(s, e)
    ensures Served(Next(s, e), c) <==> Served(s, c) || e == TakeGuard(c)
  {
  }

  lemma {:induction false} GuardIsRemembered(states: seq<State>, events: seq<Event>, i: nat, c: ConnId)
    requires IsRun(states, events) && i < |states|
    ensures Served(states[i], c) <==> TakeGuard(c) in events[..i]
    decreases i
  {
    if i > 0 {
      GuardIsRemembered(states, events, i - 1, c);
      assert events[..i] == events[..i - 1] + [events[i - 1]];
      ServedAfter(states[i - 1], events[i - 1], c);
    }
  }

  function Rank(p: ConnPhase): nat {
    match p case Spawned => 0 case Guarded => 1 case Done => 2
  }

  lemma {:induction false} ConnsOnlyAdvance(states: seq<State>, events: seq<Event>, i: nat, j: nat, c: ConnId)
    requires Steps(states, events) && i <= j < |states| && c < |states[i].conns|
    ensures c < |states[j].conns| && Rank(states[i].conns[c]) <= Rank(states[j].conns[c])
    decreases j
  {
    if i < j {
      ConnsOnlyAdvance(states, events, i, j - 1, c);
      assert Enabled(states[j - 1], events[j - 1]) && states[j] == Next(states[j - 1], events[j - 1]);
    }
  }

  /** Once all listeners have ended no connection is accepted any more, and no listener comes back. */
  lemma {:induction false} NoMoreConnections(states: seq<State>, events: seq<Event>, i: nat, j: nat)
    requires Steps(states, events) && i <= j < |states| && ListenersEnded(states[i])
    ensures ListenersEnded(states[j]) && |states[j].conns| == |states[i].conns|
    decreases j
  {
    if i < j {
      NoMoreConnections(states, events, i, j - 1);
      var s, e := states[j - 1], events[j - 1];
      assert Enabled(s, e) && states[j] == Next(s, e);
    }
  }

  // ---- Causality -----------------------------------------------------------------------------------------------

  ghost predicate SomeListenerEnded(s: State) {
    s.listeners.h1.Ended? || s.listeners.h2.Ended? || s.listeners.h3.Ended?
  }

  /** What can free the lock again: the shutdown future resolves or panics, or `join` aborts the stop task. */
  ghost predicate Frees(states: seq<State>, events: seq<Event>, k: nat)
    requires Steps(states, events) && k < |events|
  {
    events[k] == StopResolves || events[k] == StopPanics || (events[k] == AbortLands && SomeListenerEnded(states[k]))
  }

  /** The stop task's state, read off the history. */
  ghost predicate StopFits(stop: StopTask, past: seq<Event>) {
    && (stop == Resolved <==> StopResolves in past) && (stop == Panicked <==> StopPanics in past)
    && (stop == Aborted <==> AbortLands in past)
    && (stop == NotStarted <==> StopLocks !in past && AbortLands !in past)
    && (StopResolves in past || StopPanics in past ==> StopLocks in past)
  }

  lemma StepKeepsStopFits(s: State, e: Event, past: seq<Event>)
    requires Enabled(s, e) && StopFits(s.stop, past)
    ensures StopFits(Next(s, e).stop, past + [e])
  {
  }

  lemma {:induction false} StopIsHistory(states: seq<State>, events: seq<Event>, i: nat)
    requires IsRun(states, events) && i < |states|
    ensures StopFits(states[i].stop, events[..i])
    decreases i
  {
    if i > 0 {
      StopIsHistory(states, events, i - 1);
      assert Enabled(states[i - 1], events[i - 1]) && states[i] == Next(states[i - 1], events[i - 1]);
      StepKeepsStopFits(states[i - 1], events[i - 1], events[..i - 1]);
      assert events[..i] == events[..i - 1] + [events[i - 1]];
    }
  }

  /**
   Shutdown causality: once the stop task holds the lock, no listener leaves by its shutdown arm before the shutdown
   future has resolved or panicked or the stop task was aborted, and it is only aborted after some listener has ended.
   */
  lemma NobodyLeavesEarly(states: seq<State>, events: seq<Event>, j: nat, i: nat)
    requires IsRun(states, events) && j < i < |events|
    requires events[j] == StopLocks && events[i].LeaveByShutdown?
    ensures exists k :: j < k < i && Frees(states, events, k)
  {
    HeldUntilFreed(states, events, j, i);
    assert Enabled(states[i], events[i]);
  }

  lemma {:induction false} HeldUntilFreed(states: seq<State>, events: seq<Event>, j: nat, i: nat)
    requires IsRun(states, events) && j < i < |states| && events[j] == StopLocks
    ensures states[i].stop == Holding || exists k :: j < k < i && Frees(states, events, k)
    decreases i
  {
    if i > j + 1 {
      HeldUntilFreed(states, events, j, i - 1);
      var s, e := states[i - 1], events[i - 1];
      assert Enabled(s, e) && states[i] == Next(s, e);
      if s.stop == Holding && states[i].stop != Holding {
        RunInv(states, events, i - 1);
        assert Frees(states, events, i - 1);
      }
    }
  }

  /**
   A listener leaves by its shutdown arm while the future has neither resolved nor panicked, and with the stop task
   never aborted, if and only if the stop task has not even taken the lock by then.
   */
  lemma LeavesEarlyIff(states: seq<State>, events: seq<Event>, i: nat)
    requires IsRun(states, events) && i < |events| && events[i].LeaveByShutdown?
    ensures StopResolves !in events[..i] && StopPanics !in events[..i] && AbortLands !in events[..i]
            <==> StopLocks !in events[..i] && AbortLands !in events[..i]
  {
    StopIsHistory(states, events, i);
    assert Enabled(states[i], events[i]);
  }

  /**
   A listener ends of itself, or leaves before the stop task has taken the lock or after the future has panicked. A
   caller can rule out the last one with a future that does not panic.
   */
  ghost predicate EndsUnasked(events: seq<Event>, j: nat)
    requires j < |events|
  {
    || events[j].LeaveOtherwise?
    || (events[j].LeaveByShutdown? && (StopLocks !in events[..j] || StopPanics in events[..j]))
  }

  /**
   Root cause: while the shutdown future has not resolved, some listener has ended if and only if one ended of itself,
   left before the stop task had the lock, or left after the future panicked. An abort is never where it starts.
   */
  lemma {:induction false} EndedUnaskedIff(states: seq<State>, events: seq<Event>, i: nat)
    requires IsRun(states, events) && i < |states| && StopResolves !in events[..i]
    ensures SomeListenerEnded(states[i]) <==> exists j :: 0 <= j < i && EndsUnasked(events, j)
    decreases i
  {
    if i > 0 {
      var s, e := states[i - 1], events[i - 1];
      assert events[..i] == events[..i - 1] + [e];
      assert Enabled(s, e) && states[i] == Next(s, e);
      EndedUnaskedIff(states, events, i - 1);
      EndedStays(s, e);
      if e.LeaveOtherwise? || e.LeaveByShutdown? {
        LeavingNeedsACause(states, events, i - 1);
      }
    }
  }

  /** While the future has not resolved, the listener that ends first does so unasked. */
  lemma LeavingNeedsACause(states: seq<State>, events: seq<Event>, i: nat)
    requires IsRun(states, events) && i < |events| && StopResolves !in events[..i]
    requires events[i].LeaveOtherwise? || events[i].LeaveByShutdown?
    ensures EndsUnasked(events, i) || SomeListenerEnded(states[i])
  {
    StopIsHistory(states, events, i);
    RunInv(states, events, i);
    var s := states[i];
    assert Enabled(s, events[i]);
    assert (forall p :: p !in s.joined) ==> s.joined == {};
  }

  lemma EndedStays(s: State, e: Event)
    requires Enabled(s, e)
    ensures SomeListenerEnded(Next(s, e)) <==> SomeListenerEnded(s) || e.LeaveOtherwise? || e.LeaveByShutdown?
  {
  }

  /** So a server that returned was asked to, or had a listener end unasked in one of those three ways. */
  lemma ReturnedHasACause(states: seq<State>, events: seq<Event>, i: nat)
    requires IsRun(states, events) && i < |states| && states[i].joiner == Returned
    ensures StopResolves in events[..i] || exists j :: 0 <= j < i && EndsUnasked(events, j)
  {
    RunInv(states, events, i);
    if StopResolves !in events[..i] {
      EndedUnaskedIff(states, events, i);
      assert H1 in states[i].joined;
    }
  }

  lemma Go(states: seq<State>, events: seq<Event>, e: Event) returns (states': seq<State>, events': seq<Event>)
    requires Steps(states, events) && Enabled(states[|events|], e)
    ensures Steps(states', events') && events' == events + [e]
    ensures states'[0] == states[0] && states'[|events'|] == Next(states[|events|], e)
  {
    states', events' := states + [Next(states[|events|], e)], events + [e];
  }

  /** The server's own way from free listeners to the write guard. */
  const LEAVES := [LeaveByShutdown(H1), LeaveByShutdown(H2), LeaveByShutdown(H3)]

  const CLOSES := [Join(H1), Join(H2), Join(H3), AskWrite, TakeWrite]

  lemma AllLeave(before: seq<State>, done: seq<Event>) returns (states: seq<State>, events: seq<Event>)
    requires Steps(before, done)
    requires var s := before[|done|];
             s.listeners == Listeners(Running, Running, Running) && LockFree(s)
    ensures Steps(states, events) && events == done + LEAVES && states[0] == before[0]
    ensures var gone := Ended(ShutdownArm);
            states[|events|] == before[|done|].(listeners := Listeners(gone, gone, gone))
  {
    states, events := Go(before, done, LeaveByShutdown(H1));
    states, events := Go(states, events, LeaveByShutdown(H2));
    states, events := Go(states, events, LeaveByShutdown(H3));
  }

  lemma AllJoin(before: seq<State>, done: seq<Event>) returns (states: seq<State>, events: seq<Event>)
    requires Steps(before, done)
    requires var s := before[|done|];
             ListenersEnded(s) && s.joined == {} && s.joiner == Joining && Guarded !in s.conns
    ensures Steps(states, events) && events == done + CLOSES && states[0] == before[0]
    ensures states[|events|] == before[|done|].(joined := ALL_PROTOS, joiner := Writing)
  {
    states, events := Go(before, done, Join(H1));
    states, events := Go(states, events, Join(H2));
    states, events := Go(states, events, Join(H3));
    assert states[|events|].joined == ALL_PROTOS;
    states, events := Go(states, events, AskWrite);
    states, events := Go(states, events, TakeWrite);
  }

  /** The stop task can come too late: a listener that polls first ends at once, and the whole server may follow. */
  lemma ServerMayStopUnasked() returns (states: seq<State>, events: seq<Event>)
    ensures IsRun(states, events) && states[|events|].joiner == Returned
    ensures StopLocks !in events && StopResolves !in events
  {
    states, events := AllLeave([INIT], []);
    states, events := AllJoin(states, events);
    states, events := Go(states, events, Return);
  }

  /** So does a shutdown future that panics while its task holds the lock: all listeners leave, though nobody asked. */
  lemma ServerMayStopOnPanic() returns (states: seq<State>, events: seq<Event>)
    ensures IsRun(states, events) && states[|events|].joiner == Returned
    ensures events == [StopLocks, StopPanics] + LEAVES + CLOSES + [Return]
  {
    states, events := Go([INIT], [], StopLocks);
    states, events := Go(states, events, StopPanics);
    states, events := AllLeave(states, events);
    states, events := AllJoin(states, events);
    states, events := Go(states, events, Return);
  }

  /** A connection comes and goes, and the request that it spawned goes on. */
  lemma ServeOneRequest(before: seq<State>, done: seq<Event>, p: Proto) returns (states: seq<State>, events: seq<Event>)
    requires Steps(before, done) && Spawns(p)
    requires var s := before[|done|];
             s.listeners.Of(p).Running? && s.joiner == Joining && |s.via| == |s.conns|
    ensures Steps(states, events) && states[0] == before[0]
    ensures var s := before[|done|];
            states[|events|] == s.(conns := s.conns + [Done], via := s.via + [p],
                                   requests := s.requests + multiset{|s.conns|})
  {
    var c := |before[|done|].conns|;
    states, events := Go(before, done, Accept(p));
    states, events := Go(states, events, TakeGuard(c));
    states, events := Go(states, events, SpawnRequest(c));
    states, events := Go(states, events, ConnEnds(c));
  }

  /**
   The guard covers connections, not what they spawn: `srv` can get the write guard while an HTTP/2 and an HTTP/3
   request are still being served and while an accepted connection has not even started.
   */
  lemma DrainLeavesBehind() returns (states: seq<State>, events: seq<Event>)
    ensures IsRun(states, events) && states[|events|].joiner == Writing
    ensures states[|events|].stop == Resolved
    ensures states[|events|].conns == [Done, Done, Spawned] && states[|events|].via == [H2, H3, H1]
    ensures states[|events|].requests == multiset{0, 1}
  {
    states, events := ServeOneRequest([INIT], [], H2);
    states, events := ServeOneRequest(states, events, H3);
    states, events := Go(states, events, Accept(H1));
    states, events := Go(states, events, StopLocks);
    states, events := Go(states, events, StopResolves);
    states, events := AllLeave(states, events);
    states, events := AllJoin(states, events);
  }

  function One(b: bool): nat {
    if b then 1 else 0
  }

  // ---- Request tasks -------------------------------------------------------------------------------------------

  /** How often an event occurs among the first `i`. */
  ghost function Times(events: seq<Event>, i: nat, e: Event): nat
    requires i <= |events|
  {
    if i == 0 then 0 else Times(events, i - 1, e) + One(events[i - 1] == e)
  }

  lemma RequestStep(s: State, e: Event, c: ConnId)
    requires Enabled(s, e)
    ensures Next(s, e).requests[c] + One(e == RequestEnds(c)) == s.requests[c] + One(e == SpawnRequest(c))
  {
  }

  /** The requests of this connection being served are those that were spawned and have not ended. */
  ghost predicate Balanced(s: State, events: seq<Event>, i: nat, c: ConnId)
    requires i <= |events|
  {
    s.requests[c] + Times(events, i, RequestEnds(c)) == Times(events, i, SpawnRequest(c))
  }

  lemma StepKeepsBalance(s: State, events: seq<Event>, i: nat, c: ConnId)
    requires 0 < i <= |events| && Enabled(s, events[i - 1]) && Balanced(s, events, i - 1, c)
    ensures Balanced(Next(s, events[i - 1]), events, i, c)
  {
    RequestStep(s, events[i - 1], c);
  }

  lemma {:induction false} RequestsAreCounted(states: seq<State>, events: seq<Event>, i: nat, c: ConnId)
    requires IsRun(states, events) && i < |states|
    ensures Balanced(states[i], events, i, c)
    decreases i
  {
    if i > 0 {
      RequestsAreCounted(states, events, i - 1, c);
      assert Enabled(states[i - 1], events[i - 1]) && states[i] == Next(states[i - 1], events[i - 1]);
      StepKeepsBalance(states[i - 1], events, i, c);
    }
  }

  ghost predicate RequestsAreSpawned(s: State) {
    && |s.via| == |s.conns|
    && forall c | c in s.requests :: Served(s, c) && Spawns(s.via[c])
  }

  lemma RequestsStaySpawned(s: State, e: Event)
    requires RequestsAreSpawned(s) && Enabled(s, e)
    ensures RequestsAreSpawned(Next(s, e))
  {
    forall c | c in Next(s, e).requests ensures Served(Next(s, e), c) && Spawns(Next(s, e).via[c]) {
      ServedAfter(s, e, c);
    }
  }

  /** Every request task running was spawned by a served HTTP/2 or HTTP/3 connection. */
  lemma {:induction false} RunRequestsAreSpawned(states: seq<State>, events: seq<Event>, i: nat)
    requires IsRun(states, events) && i < |states|
    ensures RequestsAreSpawned(states[i])
    ensures forall p | p in states[i].via :: Accept(p) in events[..i]
    decreases i
  {
    if i > 0 {
      RunRequestsAreSpawned(states, events, i - 1);
      assert events[..i] == events[..i - 1] + [events[i - 1]];
      assert Enabled(states[i - 1], events[i - 1]) && states[i] == Next(states[i - 1], events[i - 1]);
      RequestsStaySpawned(states[i - 1], events[i - 1]);
    }
  }

  /** An HTTP/2 or HTTP/3 connection has ended, and a request that it spawned has not. */
  ghost predicate Outlived(s: State, events: seq<Event>, i: nat, c: ConnId)
    requires i <= |events|
  {
    && c < |s.conns| && c < |s.via| && Spawns(s.via[c]) && s.conns[c] == Done
    && Times(events, i, RequestEnds(c)) < Times(events, i, SpawnRequest(c))
  }

  /**
   While the write guard is held, requests are left behind if and only if some HTTP/2 or HTTP/3 connection ended before
   one that it had spawned; never if no such connection was accepted.
   */
  lemma RequestsLeftBehindIff(states: seq<State>, events: seq<Event>, i: nat)
    requires IsRun(states, events) && i < |states| && states[i].joiner == Writing
    ensures states[i].requests != multiset{} <==> exists c :: Outlived(states[i], events, i, c)
    ensures (forall p | Spawns(p) :: Accept(p) !in events[..i]) ==> states[i].requests == multiset{}
  {
    var s := states[i];
    RunInv(states, events, i);
    RunRequestsAreSpawned(states, events, i);
    forall c: ConnId ensures c in s.requests <==> Outlived(s, events, i, c) {
      RequestsAreCounted(states, events, i, c);
    }
    assert (forall c :: c !in s.requests) ==> s.requests == multiset{};
  }

  // ---- Progress ------------------------------------------------------------------------------------------------

  /** Once the stop task is over, every remaining listener can leave, and that stays so. */
  lemma {:induction false} ExitsStayOpen(states: seq<State>, events: seq<Event>, i: nat, j: nat, p: Proto)
    requires Steps(states, events) && i <= j < |states|
    requires StopOver(states[i]) && states[j].listeners.Of(p).Running?
    ensures StopOver(states[j]) && Enabled(states[j], LeaveByShutdown(p))
    decreases j
  {
    if i < j {
      var s, e := states[j - 1], events[j - 1];
      assert Enabled(s, e) && states[j] == Next(s, e);
      ExitsStayOpen(states, events, i, j - 1, p);
    }
  }

  function Count(conns: seq<ConnPhase>, p: ConnPhase): nat {
    multiset(conns)[p]
  }

  /** Work left on connections. */
  function Load(s: State): nat {
    2 * Count(s.conns, Spawned) + Count(s.conns, Guarded)
  }

  /** After the listeners have ended no step adds to the load, and every connection step takes from it. */
  lemma LoadFalls(s: State, e: Event)
    requires ListenersEnded(s) && Enabled(s, e)
    ensures Load(Next(s, e)) == Load(s) - if e.TakeGuard? || e.ConnEnds? then 1 else 0
  {
  }

  /** How many steps `srv` is away from returning, if no connection is accepted or started meanwhile. */
  function Distance(s: State): nat {
    One(s.listeners.h1.Running?) + One(s.listeners.h2.Running?) + One(s.listeners.h3.Running?)
    + One(H1 !in s.joined) + One(H2 !in s.joined) + One(H3 !in s.joined)
    + One(s.stop == NotStarted || s.stop == Holding)
    + (match s.joiner case Joining => 3 case WantsWrite => 2 case Writing => 1 case Returned => 0)
    + Count(s.conns, Guarded)
  }

  /** Steps that take the server nearer to its end: all but the stop task's first and those that make or end work. */
  predicate Works(e: Event) {
    !e.StopLocks? && !e.Accept? && !e.SpawnRequest? && !e.RequestEnds?
  }

  /** How many such steps can still follow if no connection is accepted. */
  function Remaining(s: State): nat {
    Distance(s) + 2 * Count(s.conns, Spawned)
  }

  lemma AcceptAddsWork(s: State, e: Event)
    requires Enabled(s, e) && e.Accept?
    ensures Remaining(Next(s, e)) == Remaining(s) + 2
  {
    assert Count(Next(s, e).conns, Spawned) == Count(s.conns, Spawned) + 1;
  }

  lemma GuardTakesWork(s: State, e: Event)
    requires Enabled(s, e) && e.TakeGuard?
    ensures Remaining(Next(s, e)) + 1 == Remaining(s)
  {
    assert Count(Next(s, e).conns, Spawned) == Count(s.conns, Spawned) - 1;
  }

  lemma EndTakesWork(s: State, e: Event)
    requires Enabled(s, e) && e.ConnEnds?
    ensures Remaining(Next(s, e)) + 1 == Remaining(s)
  {
    assert Count(Next(s, e).conns, Guarded) == Count(s.conns, Guarded) - 1;
  }

  lemma LeaveTakesWork(s: State, e: Event)
    requires Enabled(s, e) && (e.LeaveByShutdown? || e.LeaveOtherwise?)
    ensures Remaining(Next(s, e)) + 1 == Remaining(s)
  {
    assert Next(s, e).conns == s.conns && Next(s, e).joined == s.joined;
    match e.p
    case H1 =>
    case H2 =>
    case H3 =>
  }

  lemma JoinTakesWork(s: State, e: Event)
    requires Enabled(s, e) && e.Join?
    ensures Remaining(Next(s, e)) + 1 == Remaining(s)
  {
    match e.p
    case H1 =>
    case H2 =>
    case H3 =>
  }

  lemma OtherTakesWork(s: State, e: Event)
    requires Enabled(s, e)
    requires !e.TakeGuard? && !e.ConnEnds? && !e.Accept? && !e.LeaveByShutdown? && !e.LeaveOtherwise? && !e.Join?
    ensures Remaining(Next(s, e)) + One(Works(e)) == Remaining(s)
  {
    assert Next(s, e).conns == s.conns && Next(s, e).listeners == s.listeners && Next(s, e).joined == s.joined;
  }

  lemma StepTakesWork(s: State, e: Event)
    requires Enabled(s, e)
    ensures Remaining(Next(s, e)) + One(Works(e)) == Remaining(s) + 2 * One(e.Accept?)
  {
    match e
    case TakeGuard(_) => GuardTakesWork(s, e);
    case ConnEnds(_) => EndTakesWork(s, e);
    case Accept(_) => AcceptAddsWork(s, e);
    case LeaveByShutdown(_) => LeaveTakesWork(s, e);
    case LeaveOtherwise(_, _) => LeaveTakesWork(s, e);
    case Join(_) => JoinTakesWork(s, e);
    case _ => OtherTakesWork(s, e);
  }

  /** How many of the events `i .. j` take the server nearer to its end. */
  ghost function Worked(events: seq<Event>, i: nat, j: nat): nat
    requires i <= j <= |events|
  {
    if i == j then 0 else Worked(events, i, j - 1) + One(Works(events[j - 1]))
  }

  ghost function Accepted(events: seq<Event>, i: nat, j: nat): nat
    requires i <= j <= |events|
  {
    if i == j then 0 else Accepted(events, i, j - 1) + One(events[j - 1].Accept?)
  }

  /** Steps taken and steps that remain, less the two that each accepted connection adds. */
  ghost function Balance(events: seq<Event>, i: nat, j: nat, t: State): int
    requires i <= j <= |events|
  {
    Worked(events, i, j) + Remaining(t) - 2 * Accepted(events, i, j)
  }

  lemma StepKeepsWork(states: seq<State>, events: seq<Event>, i: nat, j: nat)
    requires Steps(states, events) && i < j < |states|
    ensures Balance(events, i, j, states[j]) == Balance(events, i, j - 1, states[j - 1])
  {
    assert Enabled(states[j - 1], events[j - 1]) && states[j] == Next(states[j - 1], events[j - 1]);
    StepTakesWork(states[j - 1], events[j - 1]);
  }

  lemma {:induction false} BalanceStays(states: seq<State>, events: seq<Event>, i: nat, j: nat)
    requires Steps(states, events) && i <= j < |states|
    ensures Balance(events, i, j, states[j]) == Balance(events, i, i, states[i])
    decreases j
  {
    if i < j {
      BalanceStays(states, events, i, j - 1);
      StepKeepsWork(states, events, i, j);
    }
  }

  /** In every run that balance stays as it was: nothing but accepting a connection adds steps. */
  lemma WorkIsConserved(states: seq<State>, events: seq<Event>, i: nat, j: nat)
    requires Steps(states, events) && i <= j < |states|
    ensures Worked(events, i, j) + Remaining(states[j]) == Remaining(states[i]) + 2 * Accepted(events, i, j)
  {
    BalanceStays(states, events, i, j);
  }

  lemma {:induction false} NoneAccepted(events: seq<Event>, i: nat, j: nat)
    requires i <= j <= |events| && forall k | i <= k < j :: !events[k].Accept?
    ensures Accepted(events, i, j) == 0
  {
    if i < j {
      NoneAccepted(events, i, j - 1);
    }
  }

  lemma NothingAccepted(states: seq<State>, events: seq<Event>, i: nat, j: nat)
    requires Steps(states, events) && i <= j < |states| && ListenersEnded(states[i])
    ensures Accepted(events, i, j) == 0
  {
    forall k | i <= k < j ensures !events[k].Accept? {
      NoMoreConnections(states, events, i, k);
      assert Enabled(states[k], events[k]);
    }
    NoneAccepted(events, i, j);
  }

  /**
   Once the listeners have ended, every run is the same number of steps away from its end: each step but those of
   request tasks and the stop task's first takes one away, and when none remains the server has returned.
   */
  lemma EndIsInSight(states: seq<State>, events: seq<Event>, i: nat, j: nat)
    requires Steps(states, events) && i <= j < |states| && ListenersEnded(states[i])
    ensures Worked(events, i, j) + Remaining(states[j]) == Remaining(states[i])
    ensures Worked(events, i, j) == Remaining(states[i]) ==> states[j].joiner == Returned
  {
    WorkIsConserved(states, events, i, j);
    NothingAccepted(states, events, i, j);
  }

  /** Is there nothing left to wait for but the server itself? */
  ghost predicate Stopping(s: State) {
    StopOver(s) || SomeListenerEnded(s)
  }

  predicate CanJoin(s: State, p: Proto) {
    Enabled(s, Join(p))
  }

  /** As long as it has not returned, a server that is stopping can do a step of its own or end a served connection. */
  lemma SomeStepWorks(s: State) returns (e: Event)
    requires Inv(s) && Stopping(s) && s.joiner != Returned
    ensures Enabled(s, e) && Works(e) && !e.TakeGuard?
  {
    var toJoin := if CanJoin(s, H1) then H1 else if CanJoin(s, H2) then H2 else H3;
    var toLeave := if s.listeners.h1.Running? then H1 else if s.listeners.h2.Running? then H2 else H3;
    if CanJoin(s, toJoin) {
      e := Join(toJoin);
    } else if s.listeners.Of(toLeave).Running? && LockFree(s) {
      e := LeaveByShutdown(toLeave);
    } else if s.stop == Holding {
      e := AbortLands;
    } else if s.joiner == Joining {
      assert s.joined == ALL_PROTOS;
      e := AskWrite;
    } else if s.joiner == Writing {
      e := Return;
    } else if Guarded in s.conns {
      var c :| 0 <= c < |s.conns| && s.conns[c] == Guarded;
      e := ConnEnds(c);
    } else {
      e := TakeWrite;
    }
  }

  lemma WorkBringsCloser(s: State, e: Event)
    requires Enabled(s, e) && Works(e) && !e.TakeGuard?
    ensures Distance(Next(s, e)) + 1 == Distance(s)
  {
    StepTakesWork(s, e);
    assert Count(Next(s, e).conns, Spawned) == Count(s.conns, Spawned);
  }

  lemma StoppingStays(s: State, e: Event)
    requires Stopping(s) && Enabled(s, e)
    ensures Stopping(Next(s, e))
  {
  }

  /**
   One listener down, all down: from every reachable state in which the stop task is over or any listener has ended for
   any reason, the server can shut down by its own steps and the ends of served connections.
   */
  lemma {:induction false} ShutdownCompletes(s: State) returns (states: seq<State>, events: seq<Event>)
    requires Inv(s) && Stopping(s)
    ensures Steps(states, events) && states[0] == s && states[|events|].joiner == Returned
    ensures |events| <= Distance(s) && forall e | e in events :: !e.Accept? && !e.TakeGuard?
    decreases Distance(s)
  {
    if s.joiner == Returned {
      states, events := [s], [];
    } else {
      var e := SomeStepWorks(s);
      StepKeepsInv(s, e);
      WorkBringsCloser(s, e);
      StoppingStays(s, e);
      var rest, more := ShutdownCompletes(Next(s, e));
      states, events := [s] + rest, [e] + more;
    }
  }
}
