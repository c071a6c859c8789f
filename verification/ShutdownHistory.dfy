/** The state of the server, read off the history of its run. */
module ShutdownHistory {
  import opened Shutdown

  /** A listener has ended by the step that ended it, and is joined once `join` has taken it. */
  ghost predicate ListenerFits(s: State, past: seq<Event>, p: Proto) {
    && (s.listeners.Of(p) == Ended(ShutdownArm) <==> LeaveByShutdown(p) in past)
    && (s.listeners.Of(p) == Ended(Crashed) <==> LeaveOtherwise(p, Crashed) in past)
    && (s.listeners.Of(p) == Ended(Closed) <==> LeaveOtherwise(p, Closed) in past)
    && (s.listeners.Of(p) == Ended(Closed) ==> p == H3)
    && (p in s.joined <==> Join(p) in past)
  }

  lemma StepKeepsListener(s: State, e: Event, past: seq<Event>, p: Proto)
    requires Enabled(s, e) && ListenerFits(s, past, p)
    ensures ListenerFits(Next(s, e), past + [e], p)
  {
  }

  lemma {:induction false} ListenerIsHistory(states: seq<State>, events: seq<Event>, i: nat, p: Proto)
    requires IsRun(states, events) && i < |states|
    ensures ListenerFits(states[i], events[..i], p)
    decreases i
  {
    if i > 0 {
      assert events[..i] == events[..i - 1] + [events[i - 1]];
      assert Enabled(states[i - 1], events[i - 1]) && states[i] == Next(states[i - 1], events[i - 1]);
      ListenerIsHistory(states, events, i - 1, p);
      StepKeepsListener(states[i - 1], events[i - 1], events[..i - 1], p);
    }
  }

  /** The server asks for the write guard, holds it and returns, in that order. */
  ghost predicate JoinerFits(s: State, past: seq<Event>) {
    s.joiner == if Return in past then Returned else if TakeWrite in past then Writing
                else if AskWrite in past then WantsWrite else Joining
  }

  lemma StepKeepsJoiner(s: State, e: Event, past: seq<Event>)
    requires Enabled(s, e) && JoinerFits(s, past)
    ensures JoinerFits(Next(s, e), past + [e])
  {
  }

  lemma {:induction false} JoinerIsHistory(states: seq<State>, events: seq<Event>, i: nat)
    requires IsRun(states, events) && i < |states|
    ensures JoinerFits(states[i], events[..i])
    decreases i
  {
    if i > 0 {
      assert events[..i] == events[..i - 1] + [events[i - 1]];
      assert Enabled(states[i - 1], events[i - 1]) && states[i] == Next(states[i - 1], events[i - 1]);
      JoinerIsHistory(states, events, i - 1);
      StepKeepsJoiner(states[i - 1], events[i - 1], events[..i - 1]);
    }
  }

  /** From the moment the server waits for the write guard until it returns, no connection begins to be served. */
  lemma LateConnectionsWait(states: seq<State>, events: seq<Event>, i: nat)
    requires IsRun(states, events) && i < |events| && events[i].TakeGuard?
    ensures AskWrite !in events[..i] || Return in events[..i]
  {
    JoinerIsHistory(states, events, i);
    assert Enabled(states[i], events[i]);
  }

  /** The server returns only after all listeners were joined and the write guard was held. */
  lemma ReturnsAtTheEnd(states: seq<State>, events: seq<Event>, i: nat)
    requires IsRun(states, events) && i < |events| && events[i] == Return
    ensures TakeWrite in events[..i] && AskWrite in events[..i] && forall p :: Join(p) in events[..i]
    ensures Guarded !in states[i].conns
  {
    JoinerIsHistory(states, events, i);
    RunInv(states, events, i);
    assert Enabled(states[i], events[i]);
    AskedFirst(states, events, i);
    forall p ensures Join(p) in events[..i] {
      ListenerIsHistory(states, events, i, p);
      assert p in ALL_PROTOS;
    }
  }

  lemma {:induction false} AskedFirst(states: seq<State>, events: seq<Event>, i: nat)
    requires IsRun(states, events) && i < |states|
    ensures TakeWrite in events[..i] ==> AskWrite in events[..i]
    decreases i
  {
    if i > 0 {
      assert events[..i] == events[..i - 1] + [events[i - 1]];
      assert Enabled(states[i - 1], events[i - 1]);
      AskedFirst(states, events, i - 1);
      JoinerIsHistory(states, events, i - 1);
    }
  }

  /** Connections are numbered as accepted, and each is waiting, served or done by its own steps. */
  ghost predicate ConnFits(s: State, past: seq<Event>, c: ConnId) {
    && |s.via| == |s.conns|
    && if c < |s.conns| then
         && Accept(s.via[c]) in past
         && s.conns[c] == if ConnEnds(c) in past then Done else if TakeGuard(c) in past then Guarded else Spawned
       else
         TakeGuard(c) !in past && ConnEnds(c) !in past
  }

  lemma StepKeepsConn(s: State, e: Event, past: seq<Event>, c: ConnId)
    requires Enabled(s, e) && ConnFits(s, past, c)
    ensures ConnFits(Next(s, e), past + [e], c)
  {
  }

  lemma {:induction false} ConnIsHistory(states: seq<State>, events: seq<Event>, i: nat, c: ConnId)
    requires IsRun(states, events) && i < |states|
    ensures ConnFits(states[i], events[..i], c)
    decreases i
  {
    if i > 0 {
      assert events[..i] == events[..i - 1] + [events[i - 1]];
      assert Enabled(states[i - 1], events[i - 1]) && states[i] == Next(states[i - 1], events[i - 1]);
      ConnIsHistory(states, events, i - 1, c);
      StepKeepsConn(states[i - 1], events[i - 1], events[..i - 1], c);
    }
  }

  /** An accepted connection gets the next number and the protocol of its listener. */
  lemma AcceptNumbers(states: seq<State>, events: seq<Event>, i: nat)
    requires IsRun(states, events) && i < |events| && events[i].Accept?
    ensures var (s, t) := (states[i], states[i + 1]);
            && s.listeners.Of(events[i].p).Running?
            && t.conns == s.conns + [Spawned] && |t.via| == |t.conns| && t.via[|s.conns|] == events[i].p
  {
    ConnIsHistory(states, events, i, 0);
    assert Enabled(states[i], events[i]) && states[i + 1] == Next(states[i], events[i]);
  }

  /** Nothing stands in the way of what clients, connections and the shutdown future do of themselves. */
  lemma OthersAreFree(s: State, p: Proto, c: ConnId)
    ensures s.listeners.Of(p).Running? ==> Enabled(s, Accept(p)) && Enabled(s, LeaveOtherwise(p, Crashed))
    ensures s.listeners.h3.Running? ==> Enabled(s, LeaveOtherwise(H3, Closed))
    ensures s.stop == NotStarted ==> Enabled(s, StopLocks)
    ensures s.stop == Holding ==> Enabled(s, StopResolves) && Enabled(s, StopPanics)
    ensures c < |s.conns| && s.conns[c] == Spawned && s.joiner in {Joining, Returned} ==> Enabled(s, TakeGuard(c))
    ensures c < |s.conns| && s.conns[c] == Guarded ==> Enabled(s, ConnEnds(c))
    ensures c < |s.conns| && c < |s.via| && s.conns[c] == Guarded && s.via[c] != H1 ==> Enabled(s, SpawnRequest(c))
    ensures c in s.requests ==> Enabled(s, RequestEnds(c))
  {
  }
}
