/** One request over the pool, from its arrival to its end, whatever the others do meanwhile. */
module PoolRequests {
  import opened Basics
  import opened Pool
  import opened PoolRuns

  function One(b: bool): nat {
    if b then 1 else 0
  }

  // ---- Attempts ------------------------------------------------------------------------------------------------

  /** A step after which the attempt is lost. A stale pooled connection does not count: it is replaced. */
  ghost predicate LosesAttempt(s: State, e: Event, r: RequestId)
    requires Enabled(s, e)
  {
    || e == DialFail(r)
    || (e == SendFail(r, false))
    || (e == SendFail(r, true) && s.requests[r].phase.OnFresh?)
  }

  /** The retry counter counts lost attempts and nothing else; the request fails exactly when too many are lost. */
  lemma RetryCounts(s: State, e: Event, r: RequestId)
    requires Enabled(s, e) && r in s.requests
    ensures var q, q' := s.requests[r], Next(s, e).requests[r];
            && q'.retry == q.retry + One(LosesAttempt(s, e, r))
            && (LosesAttempt(s, e, r) ==> q'.phase == if q'.retry <= q'.maxRetry then Looking else Failed)
  {
  }

  /** A pooled connection that proves stale is replaced by a fresh one within the same attempt. */
  lemma StaleIsReplaced(states: seq<State>, events: seq<Event>, i: nat, r: RequestId)
    requires IsRun(states, events) && i < |events| && events[i] == SendFail(r, true) && r in states[i].requests
    requires states[i].requests[r].phase.OnCached?
    ensures r in states[i + 1].requests
    ensures var q, q' := states[i].requests[r], states[i + 1].requests[r];
            q'.phase == Dialling && q'.retry == q.retry && q'.Target(q'.retry) == q.Target(q.retry)
  {
    assert Enabled(states[i], events[i]) && states[i + 1] == Next(states[i], events[i]);
  }

  /** The request is about to dial because of step `j`: it found nothing pooled, or what it found was stale. */
  ghost predicate HasToDial(s: State, e: Event, q: Request, r: RequestId) {
    && r in s.requests && s.requests[r].retry == q.retry && s.requests[r].Target(q.retry) == q.Target(q.retry)
    && ((e == Pop(r) && forall k :: !HasSlot(s.slots, q.Target(q.retry), k))
        || (e == SendFail(r, true) && s.requests[r].phase.OnCached?))
  }

  lemma DialFollows(s: State, e: Event, r: RequestId)
    requires Enabled(s, e) && r in Next(s, e).requests && Next(s, e).requests[r].phase.Dialling?
    ensures (r in s.requests && s.requests[r] == Next(s, e).requests[r])
            || HasToDial(s, e, Next(s, e).requests[r], r)
  {
    if e == Pop(r) {
      var a := s.requests[r].Target(s.requests[r].retry);
      if a in s.slots {
        NoSlotLeft(s.slots, a);
      }
    }
  }

  /** Before it dials a request has looked into the pool, and found nothing usable for its address. */
  lemma {:induction false} DialsOnlyIfNeeded(states: seq<State>, events: seq<Event>, i: nat, r: RequestId)
    requires IsRun(states, events) && i < |states|
    requires r in states[i].requests && states[i].requests[r].phase.Dialling?
    ensures exists j: nat :: j < i && HasToDial(states[j], events[j], states[i].requests[r], r)
    decreases i
  {
    if i > 0 {
      assert Enabled(states[i - 1], events[i - 1]) && states[i] == Next(states[i - 1], events[i - 1]);
      DialFollows(states[i - 1], events[i - 1], r);
      if r in states[i - 1].requests && states[i - 1].requests[r] == states[i].requests[r] {
        DialsOnlyIfNeeded(states, events, i - 1, r);
      }
    }
  }

  // ---- History -------------------------------------------------------------------------------------------------

  predicate IsDial(e: Event, r: RequestId) {
    (e.DialOk? && e.r == r) || e == DialFail(r)
  }

  predicate IsSend(e: Event, r: RequestId) {
    e == SendOk(r) || (e.SendFail? && e.r == r)
  }

  ghost function Dials(events: seq<Event>, i: nat, r: RequestId): nat
    requires i <= |events|
  {
    if i == 0 then 0 else Dials(events, i - 1, r) + One(IsDial(events[i - 1], r))
  }

  /** The send that this step completes for the request, if any: on which connection, in which attempt, and how. */
  ghost function SendOf(s: State, e: Event, r: RequestId): seq<Send> {
    if !IsSend(e, r) || r !in s.requests || !Sending(s.requests[r].phase) then [] else
    var q := s.requests[r];
    [Send(q.phase.conn, q.retry, q.phase.OnFresh?,
          match e case SendFail(_, true) => Stale case SendFail(_, false) => Broken case _ => Answered)]
  }

  ghost function SendLog(states: seq<State>, events: seq<Event>, i: nat, r: RequestId): seq<Send>
    requires i <= |events| && i <= |states|
  {
    if i == 0 then [] else SendLog(states, events, i - 1, r) + SendOf(states[i - 1], events[i - 1], r)
  }

  /** What a request says of itself is what happened. */
  ghost predicate Truthful(s: State, events: seq<Event>, i: nat, r: RequestId, sends: seq<Send>)
    requires i <= |events|
  {
    if r in s.requests then
      var q := s.requests[r];
      && (exists j: nat :: j < i && events[j] == Arrive(r, q.upstream, q.maxRetry, q.first))
      && q.dials == Dials(events, i, r) && q.sends == sends
    else
      Dials(events, i, r) == 0 && sends == []
  }

  lemma StepKeepsTruth(s: State, events: seq<Event>, i: nat, r: RequestId, sends: seq<Send>)
    requires 0 < i <= |events| && Enabled(s, events[i - 1]) && Truthful(s, events, i - 1, r, sends)
    ensures Truthful(Next(s, events[i - 1]), events, i, r, sends + SendOf(s, events[i - 1], r))
  {
    var e, t := events[i - 1], Next(s, events[i - 1]);
    if r in t.requests {
      var q := t.requests[r];
      if r in s.requests {
        assert q.upstream == s.requests[r].upstream && q.maxRetry == s.requests[r].maxRetry;
        assert q.first == s.requests[r].first;
      } else {
        assert e == Arrive(r, q.upstream, q.maxRetry, q.first);
      }
    }
  }

  lemma {:induction false} RequestIsTruthful(states: seq<State>, events: seq<Event>, i: nat, r: RequestId)
    requires IsRun(states, events) && i < |states|
    ensures Truthful(states[i], events, i, r, SendLog(states, events, i, r))
    decreases i
  {
    if i > 0 {
      assert Enabled(states[i - 1], events[i - 1]) && states[i] == Next(states[i - 1], events[i - 1]);
      RequestIsTruthful(states, events, i - 1, r);
      StepKeepsTruth(states[i - 1], events, i, r, SendLog(states, events, i - 1, r));
    }
  }

  /** How a request ended, if it did. */
  ghost predicate EndFits(s: State, past: seq<Event>, r: RequestId) {
    if r in s.requests then
      var q := s.requests[r];
      && (q.phase == Succeeded <==> SendOk(r) in past) && (q.phase == Cancelled <==> Cancel(r) in past)
      && (q.phase == Failed <==> q.retry > q.maxRetry)
    else
      SendOk(r) !in past && Cancel(r) !in past
  }

  lemma StepKeepsEnd(s: State, e: Event, past: seq<Event>, r: RequestId)
    requires Enabled(s, e) && EndFits(s, past, r)
    ensures EndFits(Next(s, e), past + [e], r)
  {
  }

  /** A request succeeds by an answer, is cancelled by its caller, or fails by losing more than `max_retry` attempts. */
  lemma {:induction false} EndIsHistory(states: seq<State>, events: seq<Event>, i: nat, r: RequestId)
    requires IsRun(states, events) && i < |states|
    ensures EndFits(states[i], events[..i], r)
    decreases i
  {
    if i > 0 {
      var s, e := states[i - 1], events[i - 1];
      assert events[..i] == events[..i - 1] + [e];
      assert Enabled(s, e) && states[i] == Next(s, e);
      EndIsHistory(states, events, i - 1, r);
      StepKeepsEnd(s, e, events[..i - 1], r);
    }
  }

  // ---- Every request ends --------------------------------------------------------------------------------------

  predicate IsOwnStep(e: Event, r: RequestId) {
    e == Pop(r) || IsDial(e, r) || IsSend(e, r) || e == Cancel(r)
  }

  ghost function OwnSteps(events: seq<Event>, i: nat, r: RequestId): nat
    requires i <= |events|
  {
    if i == 0 then 0 else OwnSteps(events, i - 1, r) + One(IsOwnStep(events[i - 1], r))
  }

  /** How many steps of its own a request can still take: look, try the pool, dial and send, once per attempt left. */
  function StepsLeft(q: Request): nat {
    var here := match q.phase
      case Looking => 4
      case OnCached(_) => 3
      case Dialling => 2
      case OnFresh(_) => 1
      case _ => 0;
    if here > 0 && q.retry <= q.maxRetry then here + 4 * (q.maxRetry - q.retry) else here
  }

  /** The steps that a request took and those that it has left are at most four per attempt. */
  ghost predicate Bounded(s: State, events: seq<Event>, i: nat, r: RequestId)
    requires i <= |events|
  {
    if r in s.requests then OwnSteps(events, i, r) + StepsLeft(s.requests[r]) <= 4 * (s.requests[r].maxRetry + 1)
    else OwnSteps(events, i, r) == 0
  }

  lemma StepsRunOut(s: State, e: Event, r: RequestId)
    requires Enabled(s, e) && r in s.requests && WithinBudget(s.requests[r])
    ensures StepsLeft(Next(s, e).requests[r]) + One(IsOwnStep(e, r)) <= StepsLeft(s.requests[r])
    ensures Next(s, e).requests[r].maxRetry == s.requests[r].maxRetry
  {
  }

  lemma StepKeepsBounded(s: State, events: seq<Event>, i: nat, r: RequestId)
    requires 0 < i <= |events| && Enabled(s, events[i - 1]) && Bounded(s, events, i - 1, r)
    requires r in s.requests ==> WithinBudget(s.requests[r])
    ensures Bounded(Next(s, events[i - 1]), events, i, r)
  {
    if r in s.requests {
      StepsRunOut(s, events[i - 1], r);
    }
  }

  lemma {:induction false} RequestIsBounded(states: seq<State>, events: seq<Event>, i: nat, r: RequestId)
    requires IsRun(states, events) && i < |states|
    ensures Bounded(states[i], events, i, r)
    decreases i
  {
    if i > 0 {
      assert Enabled(states[i - 1], events[i - 1]) && states[i] == Next(states[i - 1], events[i - 1]);
      RequestIsBounded(states, events, i - 1, r);
      var home := RunInv(states, events, i - 1);
      StepKeepsBounded(states[i - 1], events, i, r);
    }
  }

  /** And until it has ended it is never stuck, and never waits for another one: one of its steps is enabled. */
  lemma RequestCanStep(states: seq<State>, events: seq<Event>, i: nat, r: RequestId)
    requires IsRun(states, events) && i < |states| && r in states[i].requests
    ensures var (s, p) := (states[i], states[i].requests[r].phase);
            && (p.Looking? ==> Enabled(s, Pop(r)))
            && (p.OnCached? || p.OnFresh? ==> Enabled(s, SendOk(r)) && Enabled(s, SendFail(r, true))
                                              && Enabled(s, SendFail(r, false)))
            && (p.Dialling? ==> Enabled(s, DialFail(r)) && forall k :: Enabled(s, DialOk(r, k)))
            && (!Live(p) <==> forall e | IsOwnStep(e, r) :: !Enabled(s, e))
  {
    var home := RunInv(states, events, i);
    assert At(states[i], InRequest(r)).Some? ==> At(states[i], InRequest(r)).value < |states[i].conns|;
    assert IsOwnStep(Cancel(r), r);
  }

  /** What clients and connection tasks do of themselves is never held up either. */
  lemma OthersCanStep(s: State, r: RequestId, c: ConnId)
    ensures r !in s.requests ==>
              forall upstream, maxRetry, first :: Enabled(s, Arrive(r, upstream, maxRetry, first))
    ensures r in s.requests && Live(s.requests[r].phase) ==> Enabled(s, Cancel(r))
    ensures r in s.bodies ==> Enabled(s, BodyDrop(r))
    ensures c < |s.conns| && s.conns[c].task == Watching ==> Enabled(s, TaskEnds(c))
    ensures c < |s.conns| && s.conns[c].task == Watching && s.conns[c].aborted ==> Enabled(s, AbortLands(c))
    ensures c < |s.conns| && s.conns[c].task == Cleaning ==> Enabled(s, RemoveKey(c))
  {
  }

  // ---- Connections ---------------------------------------------------------------------------------------------

  /** At this step a send on the connection fails. */
  ghost predicate FailsOn(s: State, e: Event, c: ConnId) {
    e.SendFail? && e.r in s.requests && Sending(s.requests[e.r].phase) && s.requests[e.r].phase.conn == c
  }

  /** This task step leaves the address of the connection without any slot. */
  ghost predicate LeavesEmpty(s: State, e: Event, t: State, c: ConnId) {
    && e == TaskEnds(c) && c < |t.conns|
    && t.conns[c].addr in t.slots && forall k :: !HasSlot(t.slots, t.conns[c].addr, k)
  }

  lemma TaskMoves(s: State, e: Event, c: ConnId)
    requires Enabled(s, e) && c < |s.conns|
    ensures var t := Next(s, e);
            t.conns[c].task == if LeavesEmpty(s, e, t, c) then Cleaning
                               else if e in {TaskEnds(c), AbortLands(c), RemoveKey(c)} then Ended
                               else s.conns[c].task
  {
    var t := Next(s, e);
    if e == TaskEnds(c) && t.conns[c].addr in t.slots {
      NoSlotLeft(t.slots, t.conns[c].addr);
    }
  }

  ghost function FailedBefore(states: seq<State>, events: seq<Event>, i: nat, c: ConnId): bool
    requires i <= |events| && i <= |states|
  {
    i > 0 && (FailsOn(states[i - 1], events[i - 1], c) || FailedBefore(states, events, i - 1, c))
  }

  /** A send on the connection, taken from the pool, has failed. */
  ghost function FailedPooledBefore(states: seq<State>, events: seq<Event>, i: nat, c: ConnId): bool
    requires i <= |events| && i <= |states|
  {
    i > 0 && (FailsOnPooled(states[i - 1], events[i - 1], c) || FailedPooledBefore(states, events, i - 1, c))
  }

  ghost predicate FailsOnPooled(s: State, e: Event, c: ConnId) {
    FailsOn(s, e, c) && s.requests[e.r].phase.OnCached?
  }

  ghost predicate FlagsFit(s: State, c: ConnId, failed: bool, aborted: bool) {
    if c < |s.conns| then s.conns[c].failed == failed && s.conns[c].aborted == aborted else !failed && !aborted
  }

  lemma StepKeepsFlags(s: State, e: Event, c: ConnId, failed: bool, aborted: bool)
    requires Enabled(s, e) && FlagsFit(s, c, failed, aborted)
    ensures FlagsFit(Next(s, e), c, failed || FailsOn(s, e, c), aborted || FailsOnPooled(s, e, c))
  {
  }

  /** A connection counts as failed once a send on it has failed, and is aborted if it came from the pool for that. */
  lemma {:induction false} FlagsAreHistory(states: seq<State>, events: seq<Event>, i: nat, c: ConnId)
    requires IsRun(states, events) && i < |states|
    ensures FlagsFit(states[i], c, FailedBefore(states, events, i, c), FailedPooledBefore(states, events, i, c))
    decreases i
  {
    if i > 0 {
      assert Enabled(states[i - 1], events[i - 1]) && states[i] == Next(states[i - 1], events[i - 1]);
      FlagsAreHistory(states, events, i - 1, c);
      StepKeepsFlags(states[i - 1], events[i - 1], c, FailedBefore(states, events, i - 1, c),
                     FailedPooledBefore(states, events, i - 1, c));
    }
  }

  // ---- The pool ------------------------------------------------------------------------------------------------

  /** The steps that touch the pool are the four operations of the pool; the others leave it alone. */
  lemma StepsUseThePool(states: seq<State>, events: seq<Event>, i: nat)
    requires IsRun(states, events) && i < |events|
    ensures var (s, t) := (states[i], states[i + 1]);
            match events[i]
            case Pop(r) =>
              && r in s.requests && r in t.requests
              && exists found ::
                   Popped(s.slots, t.slots, s.requests[r].Target(s.requests[r].retry), found)
                   && t.requests[r].phase == if found.None? then Dialling else OnCached(found.value.1)
            case BodyDrop(r) =>
              r in s.bodies && Returned(s.slots, t.slots, s.bodies[r].addr, s.bodies[r].peer, s.bodies[r].conn)
            case TaskEnds(c) =>
              && c < |s.conns| && c < |t.conns|
              && SlotCleaned(s.slots, t.slots, s.conns[c].addr, s.conns[c].peer, t.conns[c].task == Cleaning)
            case RemoveKey(c) =>
              c < |s.conns| && KeyCleaned(s.slots, t.slots, s.conns[c].addr)
            case _ => t.slots == s.slots
  {
    var s, e := states[i], events[i];
    assert Enabled(s, e) && states[i + 1] == Next(s, e);
    match e
    case Pop(r) => PopIsPopped(s, r);
    case TaskEnds(c) => TaskEndIsCleaned(s, c);
    case _ =>
  }

  lemma PopIsPopped(s: State, r: RequestId)
    requires Enabled(s, Pop(r))
    ensures var t := Next(s, Pop(r));
            exists found ::
              Popped(s.slots, t.slots, s.requests[r].Target(s.requests[r].retry), found)
              && t.requests[r].phase == if found.None? then Dialling else OnCached(found.value.1)
  {
    var t := Next(s, Pop(r));
    var a := s.requests[r].Target(s.requests[r].retry);
    if a in s.slots {
      NoSlotLeft(s.slots, a);
    }
    if a in s.slots && s.slots[a] != map[] {
      var k := Greatest(s.slots[a].Keys);
      assert Popped(s.slots, t.slots, a, Some((k, s.slots[a][k])));
    } else {
      assert Popped(s.slots, t.slots, a, None);
    }
  }

  lemma TaskEndIsCleaned(s: State, c: ConnId)
    requires Enabled(s, TaskEnds(c))
    ensures var t := Next(s, TaskEnds(c));
            SlotCleaned(s.slots, t.slots, s.conns[c].addr, s.conns[c].peer, t.conns[c].task == Cleaning)
  {
    var t := Next(s, TaskEnds(c));
    if s.conns[c].addr in t.slots {
      NoSlotLeft(t.slots, s.conns[c].addr);
    }
  }
}
