/**
 Which of several pooled connections a request takes: the one with the greatest peer address, and so the most recently
 returned one only where these coincide.
 */
module PoolOrder {
  import opened Basics
  import opened Pool
  import opened PoolRuns

  /** Step `j` gives a connection back to the slot of peer `k` under `a`. */
  ghost predicate Returns(states: seq<State>, events: seq<Event>, j: nat, a: Addr, k: Addr)
    requires j < |events| && j < |states|
  {
    && events[j].BodyDrop? && events[j].r in states[j].bodies
    && states[j].bodies[events[j].r].addr == a && states[j].bodies[events[j].r].peer == k
  }

  /** The latest step before `i` that gives a connection back to this slot. */
  ghost function LastReturn(states: seq<State>, events: seq<Event>, i: nat, a: Addr, k: Addr): (last: Option<nat>)
    requires i <= |events| && i <= |states|
    ensures last.Some? ==> last.value < i && Returns(states, events, last.value, a, k)
    ensures forall j | 0 <= j < i && Returns(states, events, j, a, k) :: last.Some? && j <= last.value
  {
    if i == 0 then None
    else if Returns(states, events, i - 1, a, k) then Some(i - 1)
    else LastReturn(states, events, i - 1, a, k)
  }

  lemma SlotAfter(s: State, e: Event, home: seq<Place>, a: Addr, k: Addr)
    requires Inv(s, home) && Enabled(s, e) && HasSlot(Next(s, e).slots, a, k)
    ensures var c := Next(s, e).slots[a][k];
            if e.BodyDrop? && s.bodies[e.r].addr == a && s.bodies[e.r].peer == k then c == s.bodies[e.r].conn
            else HasSlot(s.slots, a, k) && s.slots[a][k] == c
  {
    StepTracks(s, e, home, InSlot(a, k));
    assert At(Next(s, e), InSlot(a, k)) == Some(Next(s, e).slots[a][k]);
  }

  /** What is pooled is what was given back to its slot last. */
  lemma {:induction false} SlotIsLastReturn(states: seq<State>, events: seq<Event>, i: nat, a: Addr, k: Addr)
    requires IsRun(states, events) && i < |states| && HasSlot(states[i].slots, a, k)
    ensures var last := LastReturn(states, events, i, a, k);
            last.Some? && states[last.value].bodies[events[last.value].r].conn == states[i].slots[a][k]
    decreases i
  {
    if i > 0 {
      var s, e := states[i - 1], events[i - 1];
      assert Enabled(s, e) && states[i] == Next(s, e);
      var home := RunInv(states, events, i - 1);
      SlotAfter(s, e, home, a, k);
      if !Returns(states, events, i - 1, a, k) {
        SlotIsLastReturn(states, events, i - 1, a, k);
      }
    }
  }

  /** Among the connections pooled for `a`, the one at peer `k` was given back last. */
  ghost predicate MostRecent(states: seq<State>, events: seq<Event>, i: nat, a: Addr, k: Addr)
    requires i <= |events| && i < |states|
  {
    && HasSlot(states[i].slots, a, k) && LastReturn(states, events, i, a, k).Some?
    && forall k' | HasSlot(states[i].slots, a, k') && k' != k ::
         var other := LastReturn(states, events, i, a, k');
         other.Some? && other.value < LastReturn(states, events, i, a, k).value
  }

  lemma {:induction false} LatestKey(last: map<Addr, nat>) returns (k: Addr)
    requires last != map[]
    requires forall k, k' | k in last && k' in last && last[k] == last[k'] :: k == k'
    ensures k in last && forall k' | k' in last && k' != k :: last[k'] < last[k]
    decreases |last|
  {
    assert (forall x :: x !in last) ==> last == map[];
    var x :| x in last;
    k := x;
    var rest := last - {x};
    if rest != map[] {
      var later := LatestKey(rest);
      assert later in last && last[later] == rest[later];
      k := if last[x] < last[later] then later else x;
      forall k' | k' in last && k' != k ensures last[k'] < last[k] {
        assert k' == x || (k' in rest && rest[k'] == last[k']);
      }
    } else {
      assert forall k' | k' in last && k' != x :: k' in rest;
    }
  }

  /** Unless an address has nothing pooled, exactly one of its connections is the most recent. */
  lemma SomeIsMostRecent(states: seq<State>, events: seq<Event>, i: nat, a: Addr) returns (k: Addr)
    requires IsRun(states, events) && i < |states| && a in states[i].slots && states[i].slots[a] != map[]
    ensures MostRecent(states, events, i, a, k)
    ensures forall k' | MostRecent(states, events, i, a, k') :: k' == k
  {
    var pooled := states[i].slots[a];
    var keys := pooled.Keys;
    assert (forall x :: x !in pooled) ==> pooled == map[];
    assert forall k :: k in keys <==> HasSlot(states[i].slots, a, k);
    forall k | k in keys ensures LastReturn(states, events, i, a, k).Some? {
      SlotIsLastReturn(states, events, i, a, k);
    }
    var last := map k | k in keys :: LastReturn(states, events, i, a, k).value;
    k := LatestKey(last);
    forall k' | k' in keys && k' != k
      ensures LastReturn(states, events, i, a, k').value < LastReturn(states, events, i, a, k).value
    {
      assert last[k'] < last[k];
    }
  }

  /**
   A request is handed the connection that was given back to its address most recently if and only if that connection
   has the greatest peer address of those pooled there.
   */
  lemma PopsMostRecentIff(states: seq<State>, events: seq<Event>, i: nat, r: RequestId, a: Addr, k: Addr)
    requires IsRun(states, events) && i < |events| && events[i] == Pop(r) && r in states[i].requests
    requires a == states[i].requests[r].Target(states[i].requests[r].retry) && MostRecent(states, events, i, a, k)
    ensures At(states[i + 1], InRequest(r)) == Some(states[i].slots[a][k]) <==> IsGreatest(states[i].slots[a].Keys, k)
  {
    var home := RunInv(states, events, i);
    var s := states[i];
    assert Enabled(s, events[i]) && states[i + 1] == Next(s, events[i]);
    var top := Greatest(s.slots[a].Keys);
    assert At(states[i + 1], InRequest(r)) == Some(s.slots[a][top]);
    assert At(s, InSlot(a, k)) == Some(s.slots[a][k]) && At(s, InSlot(a, top)) == Some(s.slots[a][top]);
  }

  /** So it is the most recent one in every run in which connections report the dialled address as their peer. */
  lemma PopsMostRecent(states: seq<State>, events: seq<Event>, i: nat, r: RequestId, a: Addr, k: Addr)
    requires IsRun(states, events) && i < |events| && events[i] == Pop(r) && r in states[i].requests
    requires a == states[i].requests[r].Target(states[i].requests[r].retry) && MostRecent(states, events, i, a, k)
    requires DialsItsPeers(states, events, i)
    ensures At(states[i + 1], InRequest(r)) == Some(states[i].slots[a][k])
  {
    PopsMostRecentIff(states, events, i, r, a, k);
    OneSlotPerAddress(states, events, i, a);
  }

  // ---- A run that takes the older one --------------------------------------------------------------------------

  function Asking(r: RequestId, a: Addr, peer: Addr): seq<Event> {
    RoundTrip(r, a, peer)[..4]
  }

  /** Two requests to one address are answered by its peers 2 and 1. */
  lemma TwoAsk(a: Addr) returns (path: seq<State>)
    ensures IsRun(path, Asking(0, a, 2) + Asking(1, a, 1))
    ensures var s := path[8];
            && s.bodies == map[0 := Body(0, a, 2), 1 := Body(1, a, 1)]
            && s.slots == map[] && s.requests.Keys == {0, 1}
  {
    var first := AskRuns(INIT, 0, a, 2);
    var second := AskRuns(first[4], 1, a, 1);
    JoinSteps(first, Asking(0, a, 2), second, Asking(1, a, 1));
    path := first + second[1..];
  }

  /** Their bodies are dropped in that order, and then a third request comes. */
  function Returning(a: Addr): seq<Event> {
    [BodyDrop(0), BodyDrop(1), Arrive(2, [a], 0, 0), Pop(2)]
  }

  lemma GiveBack(s: State, r: RequestId) returns (t: State)
    requires r in s.bodies
    ensures Steps([s, t], [BodyDrop(r)])
    ensures var b := s.bodies[r];
            t.slots == Inserted(s.slots, b.addr, b.peer, b.conn) && t.bodies == s.bodies - {r}
            && t.requests == s.requests
  {
    t := Next(s, BodyDrop(r));
  }

  lemma BothReturn(s: State, a: Addr) returns (path: seq<State>)
    requires s.bodies == map[0 := Body(0, a, 2), 1 := Body(1, a, 1)] && s.slots == map[] && 2 !in s.requests
    ensures Steps(path, Returning(a)[..2]) && path[0] == s
    ensures path[1].bodies == map[1 := Body(1, a, 1)]
    ensures path[2].slots == map[a := map[2 := 0, 1 := 1]] && 2 !in path[2].requests
  {
    var s1 := GiveBack(s, 0);
    assert s1.slots == map[a := map[2 := 0]] && s1.bodies == map[1 := Body(1, a, 1)];
    var s2 := GiveBack(s1, 1);
    JoinSteps([s, s1], [BodyDrop(0)], [s1, s2], [BodyDrop(1)]);
    path := [s, s1] + [s1, s2][1..];
    assert Returning(a)[..2] == [BodyDrop(0)] + [BodyDrop(1)];
  }

  lemma ThirdTakesOlder(s: State, a: Addr) returns (path: seq<State>)
    requires s.slots == map[a := map[2 := 0, 1 := 1]] && 2 !in s.requests
    ensures Steps(path, Returning(a)[2..]) && path[0] == s
    ensures path[1].slots == s.slots && At(path[2], InRequest(2)) == Some(0)
  {
    var s1 := Next(s, Arrive(2, [a], 0, 0));
    assert s1.requests[2].Target(0) == a;
    assert s1.slots[a].Keys == {1, 2};
    path := [s, s1, Next(s1, Pop(2))];
  }

  lemma ReturnedInTurn(states: seq<State>, events: seq<Event>, a: Addr)
    requires |events| == 12 && |states| == 13
    requires events[8] == BodyDrop(0) && events[9] == BodyDrop(1) && events[10].Arrive?
    requires 0 in states[8].bodies && states[8].bodies[0] == Body(0, a, 2)
    requires 1 in states[9].bodies && states[9].bodies[1] == Body(1, a, 1)
    requires states[11].slots == map[a := map[2 := 0, 1 := 1]]
    ensures MostRecent(states, events, 11, a, 1)
  {
    assert Returns(states, events, 8, a, 2) && Returns(states, events, 9, a, 1);
    assert LastReturn(states, events, 11, a, 1) == Some(9) && LastReturn(states, events, 11, a, 2) == Some(8);
  }

  lemma ThreeAsk(a: Addr) returns (states: seq<State>, events: seq<Event>)
    ensures IsRun(states, events) && events == Asking(0, a, 2) + Asking(1, a, 1) + Returning(a)
    ensures states[8].bodies == map[0 := Body(0, a, 2), 1 := Body(1, a, 1)]
    ensures states[9].bodies == map[1 := Body(1, a, 1)]
    ensures states[11].slots == map[a := map[2 := 0, 1 := 1]] && At(states[12], InRequest(2)) == Some(0)
  {
    var asked := Asking(0, a, 2) + Asking(1, a, 1);
    var before := TwoAsk(a);
    var between := BothReturn(before[8], a);
    var after := ThirdTakesOlder(between[2], a);
    JoinSteps(between, Returning(a)[..2], after, Returning(a)[2..]);
    assert Returning(a) == Returning(a)[..2] + Returning(a)[2..];
    JoinSteps(before, asked, between + after[1..], Returning(a));
    states, events := before + (between + after[1..])[1..], asked + Returning(a);
  }

  /**
   The pool is not a most-recently-used list: connection 1 was given back last, and the next request for the address
   is handed connection 0.
   */
  lemma OlderIsTaken(a: Addr) returns (states: seq<State>, events: seq<Event>)
    ensures IsRun(states, events) && |events| == 12 && events[11] == Pop(2)
    ensures MostRecent(states, events, 11, a, 1) && states[11].slots[a][1] == 1
    ensures At(states[12], InRequest(2)) == Some(0)
  {
    states, events := ThreeAsk(a);
    ReturnedInTurn(states, events, a);
  }

  // ---- Dead connections in the pool ----------------------------------------------------------------------------

  /** A connection that stays in its slot has a task that stays as it is: each step of that task empties the slot. */
  lemma IdleTaskRests(s: State, e: Event, home: seq<Place>, a: Addr, k: Addr)
    requires Inv(s, home) && Enabled(s, e) && HasSlot(s.slots, a, k) && HasSlot(Next(s, e).slots, a, k)
    requires var c := s.slots[a][k];
             Next(s, e).slots[a][k] == c && c < |s.conns| && (s.conns[c].aborted ==> s.conns[c].failed)
    ensures var c := s.slots[a][k];
            c < |Next(s, e).conns| && Next(s, e).conns[c].task == s.conns[c].task
  {
    assert At(s, InSlot(a, k)) == Some(s.slots[a][k]);
    assert Fits(s, s.slots[a][k], InSlot(a, k));
  }

  ghost predicate SameTask(s: State, t: State, c: ConnId) {
    c < |s.conns| && c < |t.conns| && s.conns[c].task == t.conns[c].task
  }

  lemma IdleSince(states: seq<State>, events: seq<Event>, i: nat, a: Addr, k: Addr)
    requires IsRun(states, events) && i < |events| && HasSlot(states[i + 1].slots, a, k)
    ensures var (s, t) := (states[i], states[i + 1]);
            && SameTask(s, t, t.slots[a][k])
            && (!Returns(states, events, i, a, k) ==> HasSlot(s.slots, a, k) && s.slots[a][k] == t.slots[a][k])
  {
    var s, e := states[i], events[i];
    PoolIsAffine(states, events, i + 1, a, k);
    var home := RunInv(states, events, i);
    SlotAfter(s, e, home, a, k);
    if !Returns(states, events, i, a, k) {
      var c := s.slots[a][k];
      PoolIsAffine(states, events, i, a, k);
      if s.conns[c].aborted {
        AbortFollowsFailure(states, events, i, c);
      }
      IdleTaskRests(s, e, home, a, k);
    }
  }

  lemma {:induction false} IdleTasksRest(states: seq<State>, events: seq<Event>, i: nat, a: Addr, k: Addr)
    requires IsRun(states, events) && i < |states| && HasSlot(states[i].slots, a, k)
    ensures var last := LastReturn(states, events, i, a, k);
            last.Some? && SameTask(states[last.value], states[i], states[i].slots[a][k])
    decreases i
  {
    if i > 0 {
      IdleSince(states, events, i - 1, a, k);
      if !Returns(states, events, i - 1, a, k) {
        IdleTasksRest(states, events, i - 1, a, k);
      }
    }
  }

  /** The task of a connection is over once it has ended or was aborted. */
  ghost predicate TaskFits(s: State, past: seq<Event>, c: ConnId) {
    && (TaskEnds(c) in past || AbortLands(c) in past ==> c < |s.conns|)
    && (c < |s.conns| ==> (s.conns[c].task.Watching? <==> TaskEnds(c) !in past && AbortLands(c) !in past))
    && (AbortLands(c) in past ==> c < |s.conns| && s.conns[c].aborted)
  }

  lemma StepKeepsTaskFits(s: State, e: Event, past: seq<Event>, c: ConnId)
    requires Enabled(s, e) && TaskFits(s, past, c)
    ensures TaskFits(Next(s, e), past + [e], c)
  {
  }

  lemma {:induction false} TaskIsHistory(states: seq<State>, events: seq<Event>, i: nat, c: ConnId)
    requires IsRun(states, events) && i < |states|
    ensures TaskFits(states[i], events[..i], c)
    decreases i
  {
    if i > 0 {
      var s, e := states[i - 1], events[i - 1];
      assert events[..i] == events[..i - 1] + [e];
      assert Enabled(s, e) && states[i] == Next(s, e);
      TaskIsHistory(states, events, i - 1, c);
      StepKeepsTaskFits(s, e, events[..i - 1], c);
    }
  }

  /**
   Cleanup reaches only what is pooled when the task ends: a connection in the pool is dead if and only if it was dead
   already when it was last given back.
   */
  lemma DeadInPoolIff(states: seq<State>, events: seq<Event>, i: nat, a: Addr, k: Addr)
    requires IsRun(states, events) && i < |states| && HasSlot(states[i].slots, a, k)
    ensures var last, c := LastReturn(states, events, i, a, k), states[i].slots[a][k];
            && last.Some?
            && (TaskEnds(c) in events[..i] <==> TaskEnds(c) in events[..last.value])
            && c < |states[i].conns| && (states[i].conns[c].task != Watching <==> TaskEnds(c) in events[..i])
  {
    IdleTasksRest(states, events, i, a, k);
    PoolIsAffine(states, events, i, a, k);
    var last, c := LastReturn(states, events, i, a, k).value, states[i].slots[a][k];
    TaskIsHistory(states, events, i, c);
    TaskIsHistory(states, events, last, c);
    if states[i].conns[c].aborted {
      AbortFollowsFailure(states, events, i, c);
    }
    assert forall e | e in events[..last] :: e in events[..i];
  }

  /** So the pool can hold a connection that broke while its body was read, and that no cleanup will come for. */
  lemma DeadIsPooled(a: Addr) returns (states: seq<State>, events: seq<Event>)
    ensures IsRun(states, events) && events == Asking(0, a, a) + [TaskEnds(0), BodyDrop(0)]
    ensures var t := states[6];
            t.slots == map[a := map[a := 0]] && |t.conns| == 1 && t.conns[0].task == Ended
  {
    var before := AskRuns(INIT, 0, a, a);
    var s1 := Next(before[4], TaskEnds(0));
    assert s1.slots == map[] && s1.bodies == map[0 := Body(0, a, a)];
    var after := [before[4], s1, Next(s1, BodyDrop(0))];
    JoinSteps(before, Asking(0, a, a), after, [TaskEnds(0), BodyDrop(0)]);
    states, events := before + after[1..], Asking(0, a, a) + [TaskEnds(0), BodyDrop(0)];
  }
}
