/**
 The pool in use: proxied requests, body drops and one cleanup task per connection, all interleaved at will.
 Each event is one atomic step of the code; what the network and the clients do is free.
 */
module PoolRuns {
  import opened Basics
  import opened Pool
  import Proxy

  type RequestId = nat

  type Upstream = u: seq<Addr> | u != [] witness [0]

  /** The task that drives a connection, then runs the two cleanup steps. */
  datatype Task = Watching | Cleaning | Ended

  datatype Conn = Conn(addr: Addr, peer: Addr, task: Task, aborted: bool, failed: bool)

  datatype Phase =
    | Looking
    | OnCached(conn: ConnId)
    | Dialling
    | OnFresh(conn: ConnId)
    | Succeeded
    | Failed
    | Cancelled

  /** `Stale` is an error that says the connection was closed or the request cancelled before it was sent. */
  datatype SendResult = Answered | Stale | Broken

  datatype Send = Send(conn: ConnId, attempt: nat, onFresh: bool, result: SendResult)

  /** A proxied request; `first` is the counter value it drew, `dials` and `sends` are its history. */
  datatype Request = Request(upstream: Upstream, maxRetry: nat, first: nat, retry: nat, phase: Phase,
                             dials: nat, sends: seq<Send>)
  {
    /** The address that attempt number `attempt` goes to. */
    function Target(attempt: nat): Addr {
      upstream[(first + attempt) % |upstream|]
    }
  }

  datatype Body = Body(conn: ConnId, addr: Addr, peer: Addr)

  /** `dropped` and `leaked` are indexed by the step in which it happened, a leak also by its slot key. */
  datatype State = State(conns: seq<Conn>, slots: Slots, requests: map<RequestId, Request>,
                         bodies: map<RequestId, Body>, dropped: map<nat, ConnId>,
                         leaked: map<(nat, Addr), ConnId>, clock: nat)

  const INIT := State([], map[], map[], map[], map[], map[], 0)

  datatype Event =
    | Arrive(r: RequestId, upstream: Upstream, maxRetry: nat, first: nat)
    | Pop(r: RequestId)
    | SendOk(r: RequestId)
    | SendFail(r: RequestId, stale: bool)
    | DialOk(r: RequestId, peer: Addr)
    | DialFail(r: RequestId)
    | Cancel(r: RequestId)
    | BodyDrop(r: RequestId)
    | TaskEnds(c: ConnId)
    | AbortLands(c: ConnId)
    | RemoveKey(c: ConnId)

  predicate Sending(p: Phase) {
    p.OnCached? || p.OnFresh?
  }

  predicate Live(p: Phase) {
    p.Looking? || p.Dialling? || Sending(p)
  }

  predicate Enabled(s: State, e: Event) {
    match e
    case Arrive(r, _, _, _) => r !in s.requests
    case Pop(r) => r in s.requests && s.requests[r].phase.Looking?
    case SendOk(r) => r in s.requests && Sending(s.requests[r].phase) && s.requests[r].phase.conn < |s.conns|
    case SendFail(r, _) => r in s.requests && Sending(s.requests[r].phase) && s.requests[r].phase.conn < |s.conns|
    case DialOk(r, _) => r in s.requests && s.requests[r].phase.Dialling?
    case DialFail(r) => r in s.requests && s.requests[r].phase.Dialling?
    case Cancel(r) => r in s.requests && Live(s.requests[r].phase)
    case BodyDrop(r) => r in s.bodies
    case TaskEnds(c) => c < |s.conns| && s.conns[c].task.Watching?
    case AbortLands(c) => c < |s.conns| && s.conns[c].task.Watching? && s.conns[c].aborted
    case RemoveKey(c) => c < |s.conns| && s.conns[c].task.Cleaning?
  }

  /** `pooled_fetch::http` returned an error: the proxy loop counts it and goes on or gives up. */
  function AfterError(q: Request): Request {
    if q.retry + 1 > q.maxRetry then q.(retry := q.retry + 1, phase := Failed)
    else q.(retry := q.retry + 1, phase := Looking)
  }

  ghost function Next(s: State, e: Event): State
    requires Enabled(s, e)
  {
    var t := s.(clock := s.clock + 1);
    match e
    case Arrive(r, upstream, maxRetry, first) =>
      t.(requests := s.requests[r := Request(upstream, maxRetry, first, 0, Looking, 0, [])])
    case Pop(r) =>
      var q := s.requests[r];
      var a := q.Target(q.retry);
      if a in s.slots && s.slots[a] != map[] then
        var k := Greatest(s.slots[a].Keys);
        t.(slots := WithoutSlot(s.slots, a, k),
           requests := s.requests[r := q.(phase := OnCached(s.slots[a][k]))])
      else
        t.(requests := s.requests[r := q.(phase := Dialling)])
    case SendOk(r) =>
      var q := s.requests[r];
      var c := q.phase.conn;
      t.(requests := s.requests[r := q.(phase := Succeeded,
                                             sends := q.sends + [Send(c, q.retry, q.phase.OnFresh?, Answered)])],
         bodies := s.bodies[r := Body(c, q.Target(q.retry), s.conns[c].peer)])
    case SendFail(r, stale) =>
      var was := s.requests[r];
      var c := was.phase.conn;
      var q := was.(sends := was.sends + [Send(c, was.retry, was.phase.OnFresh?, if stale then Stale else Broken)]);
      t.(conns := s.conns[c := s.conns[c].(failed := true, aborted := s.conns[c].aborted || q.phase.OnCached?)],
         dropped := s.dropped[s.clock := c],
         requests := s.requests[r := if q.phase.OnCached? && stale then q.(phase := Dialling) else AfterError(q)])
    case DialOk(r, peer) =>
      var q := s.requests[r];
      t.(conns := s.conns + [Conn(q.Target(q.retry), peer, Watching, false, false)],
         requests := s.requests[r := q.(phase := OnFresh(|s.conns|), dials := q.dials + 1)])
    case DialFail(r) =>
      var q := s.requests[r];
      t.(requests := s.requests[r := AfterError(q.(dials := q.dials + 1))])
    case Cancel(r) =>
      var q := s.requests[r];
      t.(requests := s.requests[r := q.(phase := Cancelled)],
         dropped := if Sending(q.phase) then s.dropped[s.clock := q.phase.conn] else s.dropped)
    case BodyDrop(r) =>
      var b := s.bodies[r];
      t.(bodies := s.bodies - {r},
         slots := Inserted(s.slots, b.addr, b.peer, b.conn),
         leaked := s.leaked + Leaks(s.slots, b.addr, {b.peer}, s.clock))
    case TaskEnds(c) =>
      var n := s.conns[c];
      var slots := WithoutSlot(s.slots, n.addr, n.peer);
      t.(slots := slots,
         leaked := s.leaked + Leaks(s.slots, n.addr, {n.peer}, s.clock),
         conns := s.conns[c := n.(task := if n.addr in slots && slots[n.addr] == map[] then Cleaning else Ended)])
    case AbortLands(c) =>
      t.(conns := s.conns[c := s.conns[c].(task := Ended)])
    case RemoveKey(c) =>
      var n := s.conns[c];
      t.(slots := s.slots - {n.addr},
         leaked := s.leaked + AllLeaks(s.slots, n.addr, s.clock),
         conns := s.conns[c := n.(task := Ended)])
  }

  /** Where a connection can be. */
  datatype Place =
    | InSlot(a: Addr, k: Addr)
    | InRequest(r: RequestId)
    | InBody(b: RequestId)
    | InDropped(at: nat)
    | InLeaked(since: nat, key: Addr)

  function At(s: State, p: Place): Option<ConnId> {
    match p
    case InSlot(a, k) => if HasSlot(s.slots, a, k) then Some(s.slots[a][k]) else None
    case InRequest(r) =>
      if r in s.requests && Sending(s.requests[r].phase) then Some(s.requests[r].phase.conn) else None
    case InBody(r) => if r in s.bodies then Some(s.bodies[r].conn) else None
    case InDropped(at) => if at in s.dropped then Some(s.dropped[at]) else None
    case InLeaked(since, key) => if (since, key) in s.leaked then Some(s.leaked[(since, key)]) else None
  }

  /** `home[c]` is the one place of connection `c`. */
  ghost predicate Homes(s: State, home: seq<Place>) {
    && |home| == |s.conns|
    && (forall c | 0 <= c < |home| :: At(s, home[c]) == Some(c))
    && (forall p | At(s, p).Some? :: At(s, p).value < |home| && home[At(s, p).value] == p)
  }

  /** Graves are never dated in the future. */
  ghost predicate Dated(s: State) {
    && (forall at | at in s.dropped :: at < s.clock)
    && (forall x | x in s.leaked :: x.0 < s.clock)
  }

  /**
   What the place of a connection says about it: it was dialled to the address it is used for, a slot carries its
   peer address, and outside the graves no send on it has failed.
   */
  ghost predicate Fits(s: State, c: ConnId, p: Place) {
    && c < |s.conns|
    && match p {
         case InSlot(a, k) => s.conns[c].addr == a && s.conns[c].peer == k && !s.conns[c].failed
         case InRequest(r) =>
           r in s.requests && s.conns[c].addr == s.requests[r].Target(s.requests[r].retry) && !s.conns[c].failed
         case InBody(r) =>
           && r in s.bodies && s.bodies[r] == Body(c, s.conns[c].addr, s.conns[c].peer) && !s.conns[c].failed
           && r in s.requests && s.requests[r].phase.Succeeded?
         case _ => true
       }
  }

  ghost predicate Affine(s: State) {
    forall p | At(s, p).Some? :: Fits(s, At(s, p).value, p)
  }

  ghost predicate Inv(s: State, home: seq<Place>) {
    Homes(s, home) && Dated(s) && Affine(s)
  }

  /** Where connection `c` is after the step. */
  ghost function NewHome(s: State, e: Event, p: Place): Place
    requires Enabled(s, e)
  {
    match e
    case Pop(r) =>
      var q := s.requests[r];
      var a := q.Target(q.retry);
      if a in s.slots && s.slots[a] != map[] && p == InSlot(a, Greatest(s.slots[a].Keys)) then InRequest(r) else p
    case SendOk(r) => if p == InRequest(r) then InBody(r) else p
    case SendFail(r, _) => if p == InRequest(r) then InDropped(s.clock) else p
    case Cancel(r) => if p == InRequest(r) then InDropped(s.clock) else p
    case BodyDrop(r) =>
      var b := s.bodies[r];
      if p == InBody(r) then InSlot(b.addr, b.peer)
      else if p == InSlot(b.addr, b.peer) then InLeaked(s.clock, b.peer) else p
    case TaskEnds(c) =>
      var n := s.conns[c];
      if p == InSlot(n.addr, n.peer) then InLeaked(s.clock, n.peer) else p
    case RemoveKey(c) =>
      if p.InSlot? && p.a == s.conns[c].addr then InLeaked(s.clock, p.k) else p
    case _ => p
  }

  /** Where the connection that is at `p` after the step comes from. */
  ghost function OldPlace(s: State, e: Event, p: Place): Place
    requires Enabled(s, e)
  {
    match e
    case Pop(r) =>
      var q := s.requests[r];
      var a := q.Target(q.retry);
      if p == InRequest(r) && a in s.slots && s.slots[a] != map[] then InSlot(a, Greatest(s.slots[a].Keys)) else p
    case SendOk(r) => if p == InBody(r) then InRequest(r) else p
    case SendFail(r, _) => if p == InDropped(s.clock) then InRequest(r) else p
    case Cancel(r) => if p == InDropped(s.clock) then InRequest(r) else p
    case BodyDrop(r) =>
      var b := s.bodies[r];
      if p == InSlot(b.addr, b.peer) then InBody(r)
      else if p == InLeaked(s.clock, b.peer) then InSlot(b.addr, b.peer) else p
    case TaskEnds(c) =>
      var n := s.conns[c];
      if p == InLeaked(s.clock, n.peer) then InSlot(n.addr, n.peer) else p
    case RemoveKey(c) =>
      if p.InLeaked? && p.since == s.clock then InSlot(s.conns[c].addr, p.key) else p
    case _ => p
  }

  ghost function NewHomes(s: State, e: Event, home: seq<Place>): seq<Place>
    requires Enabled(s, e)
  {
    seq(|home|, i requires 0 <= i < |home| => NewHome(s, e, home[i])) + if e.DialOk? then [InRequest(e.r)] else []
  }

  /** What was at `p` is found at its new place. */
  ghost predicate Follows(s: State, e: Event, p: Place)
    requires Enabled(s, e)
  {
    At(s, p).Some? ==> At(Next(s, e), NewHome(s, e, p)) == At(s, p)
  }

  /** What is at `p` now was at exactly one place before, or was dialled just now. */
  ghost predicate Stems(s: State, e: Event, p: Place)
    requires Enabled(s, e)
  {
    At(Next(s, e), p).Some? && !(e.DialOk? && p == InRequest(e.r)) ==>
      At(s, OldPlace(s, e, p)) == At(Next(s, e), p) && NewHome(s, e, OldPlace(s, e, p)) == p
  }

  ghost predicate Tracks(s: State, e: Event, p: Place)
    requires Enabled(s, e)
  {
    Follows(s, e, p) && Stems(s, e, p)
  }

  lemma PopFollows(s: State, e: Event, p: Place)
    requires Dated(s) && Enabled(s, e) && e.Pop?
    ensures Follows(s, e, p)
  {
  }

  lemma PopStems(s: State, e: Event, p: Place)
    requires Dated(s) && Enabled(s, e) && e.Pop?
    ensures Stems(s, e, p)
  {
  }

  lemma BodyDropFollows(s: State, e: Event, p: Place)
    requires Dated(s) && Enabled(s, e) && e.BodyDrop?
    ensures Follows(s, e, p)
  {
  }

  lemma BodyDropStems(s: State, e: Event, p: Place)
    requires Dated(s) && Enabled(s, e) && e.BodyDrop?
    ensures Stems(s, e, p)
  {
  }

  lemma TaskEndsFollows(s: State, e: Event, p: Place)
    requires Dated(s) && Enabled(s, e) && e.TaskEnds?
    ensures Follows(s, e, p)
  {
  }

  lemma TaskEndsStems(s: State, e: Event, p: Place)
    requires Dated(s) && Enabled(s, e) && e.TaskEnds?
    ensures Stems(s, e, p)
  {
  }

  lemma RemoveKeyFollows(s: State, e: Event, p: Place)
    requires Dated(s) && Enabled(s, e) && e.RemoveKey?
    ensures Follows(s, e, p)
  {
  }

  lemma RemoveKeyStems(s: State, e: Event, p: Place)
    requires Dated(s) && Enabled(s, e) && e.RemoveKey?
    ensures Stems(s, e, p)
  {
  }

  lemma SendOkTracks(s: State, e: Event, home: seq<Place>, p: Place)
    requires Inv(s, home) && Enabled(s, e) && e.SendOk?
    ensures Tracks(s, e, p)
  {
    assert At(s, InBody(e.r)).None?;
  }

  lemma SendFailTracks(s: State, e: Event, home: seq<Place>, p: Place)
    requires Inv(s, home) && Enabled(s, e) && e.SendFail?
    ensures Tracks(s, e, p)
  {
  }

  lemma CancelTracks(s: State, e: Event, home: seq<Place>, p: Place)
    requires Inv(s, home) && Enabled(s, e) && e.Cancel?
    ensures Tracks(s, e, p)
  {
  }

  lemma OtherTracks(s: State, e: Event, home: seq<Place>, p: Place)
    requires Inv(s, home) && Enabled(s, e)
    requires e.Arrive? || e.DialOk? || e.DialFail? || e.AbortLands?
    ensures Tracks(s, e, p)
  {
  }

  lemma StepTracks(s: State, e: Event, home: seq<Place>, p: Place)
    requires Inv(s, home) && Enabled(s, e)
    ensures Tracks(s, e, p)
  {
    match e
    case Pop(_) =>
      PopFollows(s, e, p);
      PopStems(s, e, p);
    case BodyDrop(_) =>
      BodyDropFollows(s, e, p);
      BodyDropStems(s, e, p);
    case TaskEnds(_) =>
      TaskEndsFollows(s, e, p);
      TaskEndsStems(s, e, p);
    case RemoveKey(_) =>
      RemoveKeyFollows(s, e, p);
      RemoveKeyStems(s, e, p);
    case SendOk(_) => SendOkTracks(s, e, home, p);
    case SendFail(_, _) => SendFailTracks(s, e, home, p);
    case Cancel(_) => CancelTracks(s, e, home, p);
    case _ => OtherTracks(s, e, home, p);
  }

  lemma StepKeepsHomes(s: State, e: Event, home: seq<Place>)
    requires Inv(s, home) && Enabled(s, e)
    ensures Homes(Next(s, e), NewHomes(s, e, home))
  {
    var t, home' := Next(s, e), NewHomes(s, e, home);
    forall c | 0 <= c < |home'| ensures At(t, home'[c]) == Some(c) {
      if c < |home| {
        assert At(s, home[c]) == Some(c);
        StepTracks(s, e, home, home[c]);
      }
    }
    forall p | At(t, p).Some? ensures At(t, p).value < |home'| && home'[At(t, p).value] == p {
      if !(e.DialOk? && p == InRequest(e.r)) {
        StepTracks(s, e, home, p);
        var was := OldPlace(s, e, p);
        assert At(s, was) == At(t, p);
      }
    }
  }

  lemma StepKeepsDated(s: State, e: Event)
    requires Dated(s) && Enabled(s, e)
    ensures Dated(Next(s, e))
  {
  }

  lemma SendFailFits(s: State, e: Event, home: seq<Place>, c: ConnId, was: Place)
    requires Inv(s, home) && Enabled(s, e) && At(s, was) == Some(c) && e.SendFail?
    ensures Fits(Next(s, e), c, NewHome(s, e, was))
  {
    assert Fits(s, c, was);
    assert home[c] == was && home[At(s, InRequest(e.r)).value] == InRequest(e.r);
  }

  lemma SlotFits(s: State, e: Event, home: seq<Place>, c: ConnId, was: Place)
    requires Inv(s, home) && Enabled(s, e) && At(s, was) == Some(c)
    requires (e.Pop? || e.BodyDrop? || e.TaskEnds? || e.RemoveKey?)
    ensures Fits(Next(s, e), c, NewHome(s, e, was))
  {
    assert Fits(s, c, was);
  }

  lemma OtherFits(s: State, e: Event, home: seq<Place>, c: ConnId, was: Place)
    requires Inv(s, home) && Enabled(s, e) && At(s, was) == Some(c)
    requires (e.SendOk? || e.Cancel? || e.Arrive? || e.DialOk? || e.DialFail? || e.AbortLands?)
    ensures Fits(Next(s, e), c, NewHome(s, e, was))
  {
    assert Fits(s, c, was);
  }

  lemma StepFits(s: State, e: Event, home: seq<Place>, c: ConnId, was: Place)
    requires Inv(s, home) && Enabled(s, e) && At(s, was) == Some(c)
    ensures Fits(Next(s, e), c, NewHome(s, e, was))
  {
    match e
    case SendFail(_, _) => SendFailFits(s, e, home, c, was);
    case Pop(_) => SlotFits(s, e, home, c, was);
    case BodyDrop(_) => SlotFits(s, e, home, c, was);
    case TaskEnds(_) => SlotFits(s, e, home, c, was);
    case RemoveKey(_) => SlotFits(s, e, home, c, was);
    case _ => OtherFits(s, e, home, c, was);
  }

  lemma StepKeepsAffine(s: State, e: Event, home: seq<Place>)
    requires Inv(s, home) && Enabled(s, e)
    ensures Affine(Next(s, e))
  {
    var t := Next(s, e);
    forall p | At(t, p).Some? ensures Fits(t, At(t, p).value, p) {
      if e.DialOk? && p == InRequest(e.r) {
      } else {
        StepTracks(s, e, home, p);
        StepFits(s, e, home, At(t, p).value, OldPlace(s, e, p));
      }
    }
  }

  lemma StepKeepsInv(s: State, e: Event, home: seq<Place>)
    requires Inv(s, home) && Enabled(s, e)
    ensures Inv(Next(s, e), NewHomes(s, e, home))
  {
    StepKeepsHomes(s, e, home);
    StepKeepsDated(s, e);
    StepKeepsAffine(s, e, home);
  }

  /** How much of the network one request may have used, phase by phase. */
  ghost predicate WithinBudget(q: Request) {
    && (q.retry <= q.maxRetry || (q.phase.Failed? && q.retry == q.maxRetry + 1))
    && match q.phase {
         case Looking => q.dials <= q.retry && |q.sends| <= 2 * q.retry
         case OnCached(_) => q.dials <= q.retry && |q.sends| <= 2 * q.retry
         case Dialling => q.dials <= q.retry && |q.sends| <= 2 * q.retry + 1
         case OnFresh(_) => q.dials <= q.retry + 1 && |q.sends| <= 2 * q.retry + 1
         case Failed => q.retry == q.maxRetry + 1 && q.dials <= q.retry && |q.sends| <= 2 * q.retry
         case _ => q.dials <= q.retry + 1 && |q.sends| <= 2 * q.retry + 2
       }
  }

  /** Every send used a connection dialled to the address of its attempt. */
  ghost predicate Attributed(s: State, q: Request) {
    forall i | 0 <= i < |q.sends| ::
      && q.sends[i].attempt <= q.retry && q.sends[i].conn < |s.conns|
      && s.conns[q.sends[i].conn].addr == q.Target(q.sends[i].attempt)
  }

  /**
   The history of sends, attempt after attempt: a second send in one attempt only ever follows a stale pooled
   connection, and goes out on a fresh one. An answer ends the request.
   */
  ghost predicate WellShaped(q: Request) {
    && (forall i | 0 <= i < |q.sends| - 1 :: MayFollow(q.sends[i], q.sends[i + 1]))
    && (if q.sends == [] then !q.phase.Succeeded? else
        var last := q.sends[|q.sends| - 1];
        && (last.result == Answered <==> q.phase.Succeeded?)
        && last.attempt <= q.retry
        && (q.phase.Looking? || q.phase.OnCached? || q.phase.Failed? ==> last.attempt < q.retry)
        && (q.phase.Dialling? || q.phase.OnFresh? ==>
              last.attempt < q.retry || (!last.onFresh && last.result == Stale)))
  }

  ghost predicate MayFollow(a: Send, b: Send) {
    && a.result != Answered
    && (a.attempt < b.attempt || (a.attempt == b.attempt && !a.onFresh && a.result == Stale && b.onFresh))
  }

  ghost predicate GoodRequests(s: State) {
    forall r | r in s.requests ::
      WithinBudget(s.requests[r]) && Attributed(s, s.requests[r]) && WellShaped(s.requests[r])
  }

  lemma StepKeepsAddresses(s: State, e: Event)
    requires Enabled(s, e)
    ensures var t := Next(s, e);
            |s.conns| <= |t.conns| && forall c | 0 <= c < |s.conns| ::
              && t.conns[c].addr == s.conns[c].addr && t.conns[c].peer == s.conns[c].peer
              && (s.conns[c].failed ==> t.conns[c].failed)
  {
  }

  lemma AttributedStays(s: State, e: Event, q: Request)
    requires Enabled(s, e) && Attributed(s, q)
    ensures Attributed(Next(s, e), q)
  {
    StepKeepsAddresses(s, e);
  }

  lemma BudgetAfter(s: State, e: Event, r: RequestId)
    requires Enabled(s, e) && r in s.requests && WithinBudget(s.requests[r])
    ensures WithinBudget(Next(s, e).requests[r])
  {
  }

  lemma ShapeAfterSend(s: State, e: Event, r: RequestId)
    requires Enabled(s, e) && r in s.requests && WellShaped(s.requests[r]) && (e.SendOk? || e.SendFail?)
    ensures WellShaped(Next(s, e).requests[r])
  {
  }

  lemma ShapeAfterOther(s: State, e: Event, r: RequestId)
    requires Enabled(s, e) && r in s.requests && WellShaped(s.requests[r]) && !e.SendOk? && !e.SendFail?
    ensures WellShaped(Next(s, e).requests[r])
  {
  }

  /** A request keeps its upstream and its draw, and adds at most the send it is making. */
  ghost predicate Continues(q: Request, q': Request) {
    && q'.upstream == q.upstream && q'.first == q.first && q'.retry >= q.retry
    && (q'.sends == q.sends || (Sending(q.phase)
                                 && |q'.sends| == |q.sends| + 1 && q'.sends[..|q.sends|] == q.sends
                                 && q'.sends[|q.sends|].conn == q.phase.conn && q'.sends[|q.sends|].attempt == q.retry))
  }

  lemma RequestContinues(s: State, e: Event, r: RequestId)
    requires Enabled(s, e) && r in s.requests
    ensures Continues(s.requests[r], Next(s, e).requests[r])
  {
  }

  lemma AttributedContinues(s: State, r: RequestId, q': Request)
    requires r in s.requests && Attributed(s, s.requests[r]) && Continues(s.requests[r], q')
    requires Sending(s.requests[r].phase) ==> Fits(s, s.requests[r].phase.conn, InRequest(r))
    ensures Attributed(s, q')
  {
    assert forall k :: q'.Target(k) == s.requests[r].Target(k);
  }

  lemma RequestAfter(s: State, e: Event, home: seq<Place>, r: RequestId)
    requires Inv(s, home) && GoodRequests(s) && Enabled(s, e) && r in Next(s, e).requests
    ensures var t := Next(s, e); var q := t.requests[r];
            WithinBudget(q) && Attributed(t, q) && WellShaped(q)
  {
    if r in s.requests {
      BudgetAfter(s, e, r);
      if e.SendOk? || e.SendFail? {
        ShapeAfterSend(s, e, r);
      } else {
        ShapeAfterOther(s, e, r);
      }
      assert At(s, InRequest(r)).Some? ==> Fits(s, At(s, InRequest(r)).value, InRequest(r));
      RequestContinues(s, e, r);
      AttributedContinues(s, r, Next(s, e).requests[r]);
      AttributedStays(s, e, Next(s, e).requests[r]);
    }
  }

  lemma StepKeepsRequests(s: State, e: Event, home: seq<Place>)
    requires Inv(s, home) && GoodRequests(s) && Enabled(s, e)
    ensures GoodRequests(Next(s, e))
  {
    forall r | r in Next(s, e).requests
      ensures var q := Next(s, e).requests[r]; WithinBudget(q) && Attributed(Next(s, e), q) && WellShaped(q)
    {
      RequestAfter(s, e, home, r);
    }
  }

  ghost predicate Steps(states: seq<State>, events: seq<Event>) {
    && |states| == |events| + 1
    && forall i {:trigger events[i]} | 0 <= i < |events| ::
         Enabled(states[i], events[i]) && states[i + 1] == Next(states[i], events[i])
  }

  ghost predicate IsRun(states: seq<State>, events: seq<Event>) {
    Steps(states, events) && states[0] == INIT
  }

  lemma {:induction false} RunInv(states: seq<State>, events: seq<Event>, i: nat) returns (home: seq<Place>)
    requires IsRun(states, events) && i < |states|
    ensures Inv(states[i], home) && GoodRequests(states[i])
    decreases i
  {
    if i == 0 {
      home := [];
    } else {
      var before := RunInv(states, events, i - 1);
      home := NewHomes(states[i - 1], events[i - 1], before);
      StepKeepsInv(states[i - 1], events[i - 1], before);
      StepKeepsRequests(states[i - 1], events[i - 1], before);
    }
  }

  /**
   Pool exclusivity: in every state of every run each dialled connection is in exactly one place, so none is lost
   from the count and none is handed out twice, whatever the cleanup tasks race with.
   */
  lemma EveryConnectionInOnePlace(states: seq<State>, events: seq<Event>, i: nat, c: ConnId)
    requires IsRun(states, events) && i < |states| && c < |states[i].conns|
    ensures exists p :: At(states[i], p) == Some(c)
    ensures forall p, q | At(states[i], p) == Some(c) && At(states[i], q) == Some(c) :: p == q
  {
    var home := RunInv(states, events, i);
    assert At(states[i], home[c]) == Some(c);
  }

  /** Everything in `POOL[addr]` was dialled to `addr`, sits under its own peer address, and never failed a send. */
  lemma PoolIsAffine(states: seq<State>, events: seq<Event>, i: nat, a: Addr, k: Addr)
    requires IsRun(states, events) && i < |states| && HasSlot(states[i].slots, a, k)
    ensures var c := states[i].slots[a][k];
            && c < |states[i].conns|
            && states[i].conns[c].addr == a && states[i].conns[c].peer == k && !states[i].conns[c].failed
  {
    var home := RunInv(states, events, i);
    assert At(states[i], InSlot(a, k)).Some? && Fits(states[i], states[i].slots[a][k], InSlot(a, k));
  }

  /** Once a send on a connection has failed, no later state has it anywhere but in a grave. */
  lemma {:induction false} NoResurrection(states: seq<State>, events: seq<Event>, i: nat, j: nat, c: ConnId, p: Place)
    requires IsRun(states, events) && i <= j < |states|
    requires c < |states[i].conns| && states[i].conns[c].failed
    requires At(states[j], p) == Some(c)
    ensures p.InDropped? || p.InLeaked?
  {
    FailureIsKept(states, events, i, j, c);
    var home := RunInv(states, events, j);
    assert Fits(states[j], c, p);
  }

  lemma {:induction false} FailureIsKept(states: seq<State>, events: seq<Event>, i: nat, j: nat, c: ConnId)
    requires IsRun(states, events) && i <= j < |states|
    requires c < |states[i].conns| && states[i].conns[c].failed
    ensures c < |states[j].conns| && states[j].conns[c].failed
    decreases j
  {
    if i < j {
      FailureIsKept(states, events, i, j - 1, c);
      StepKeepsAddresses(states[j - 1], events[j - 1]);
    }
  }

  /**
   Aborting a connection's task cuts off its cleanup, and that is safe: in every run an aborted connection has failed
   a send, and is neither in the pool nor on its way back to it.
   */
  lemma AbortedNeedsNoCleanup(states: seq<State>, events: seq<Event>, i: nat, c: ConnId, p: Place)
    requires IsRun(states, events) && i < |states|
    requires c < |states[i].conns| && states[i].conns[c].aborted && At(states[i], p) == Some(c)
    ensures p.InDropped? || p.InLeaked?
  {
    AbortFollowsFailure(states, events, i, c);
    NoResurrection(states, events, i, i, c, p);
  }

  lemma {:induction false} AbortFollowsFailure(states: seq<State>, events: seq<Event>, i: nat, c: ConnId)
    requires IsRun(states, events) && i < |states|
    requires c < |states[i].conns| && states[i].conns[c].aborted
    ensures states[i].conns[c].failed
    decreases i
  {
    if i > 0 {
      var s, e := states[i - 1], events[i - 1];
      assert Enabled(s, e) && states[i] == Next(s, e);
      if c < |s.conns| && s.conns[c].aborted {
        AbortFollowsFailure(states, events, i - 1, c);
      }
    }
  }

  // ---- One request over the pool -------------------------------------------------------------------------------

  /** An answered request and its body, which lives until it is dropped. */
  ghost predicate BodyFits(s: State, past: seq<Event>, r: RequestId) {
    && (r in s.bodies <==> r in s.requests && s.requests[r].phase.Succeeded? && BodyDrop(r) !in past)
    && (BodyDrop(r) in past ==> r in s.requests && s.requests[r].phase.Succeeded?)
    && (r in s.bodies ==>
          var sends := s.requests[r].sends; sends != [] && sends[|sends| - 1].conn == s.bodies[r].conn)
  }

  lemma StepKeepsBody(s: State, past: seq<Event>, e: Event, r: RequestId)
    requires BodyFits(s, past, r) && Enabled(s, e)
    ensures BodyFits(Next(s, e), past + [e], r)
  {
  }

  lemma {:induction false} BodyIsHistory(states: seq<State>, events: seq<Event>, i: nat, r: RequestId)
    requires IsRun(states, events) && i < |states|
    ensures BodyFits(states[i], events[..i], r)
    decreases i
  {
    if i > 0 {
      var s, e := states[i - 1], events[i - 1];
      assert events[..i] == events[..i - 1] + [e];
      assert Enabled(s, e) && states[i] == Next(s, e);
      BodyIsHistory(states, events, i - 1, r);
      StepKeepsBody(s, events[..i - 1], e, r);
    }
  }

  /**
   A proxied request dials at most `max_retry + 1` times and sends at most twice as often, each send on a
   connection dialled to the address of its attempt, and twice in one attempt only if a pooled connection was stale.
   A failed one holds nothing. An answered one holds the connection that answered it in its body, and nowhere else,
   until that body is dropped.
   */
  lemma ProxiedRequestIsBounded(states: seq<State>, events: seq<Event>, i: nat, r: RequestId)
    requires IsRun(states, events) && i < |states| && r in states[i].requests
    ensures var s := states[i]; var q := s.requests[r];
            && q.dials <= q.maxRetry + 1 && |q.sends| <= 2 * (q.maxRetry + 1) && Attributed(s, q) && WellShaped(q)
            && (q.phase.Failed? ==> q.retry == q.maxRetry + 1
                                    && At(s, InRequest(r)).None? && At(s, InBody(r)).None?)
            && (At(s, InBody(r)).Some? <==> q.phase.Succeeded? && BodyDrop(r) !in events[..i])
            && (At(s, InBody(r)).Some? ==>
                  At(s, InBody(r)) == Some(q.sends[|q.sends| - 1].conn) && At(s, InRequest(r)).None?)
  {
    var home := RunInv(states, events, i);
    BodyIsHistory(states, events, i, r);
  }

  /**
   At step `j` an attempt of the request at this address fails for good: the dial there, or the send on a connection
   dialled there, be it fresh or, if it is not just stale, from the pool. The next attempt begins, or none is left.
   */
  ghost predicate FailsAt(states: seq<State>, events: seq<Event>, j: nat, r: RequestId, a: Addr)
    requires Steps(states, events) && j < |events|
  {
    var s, t, e := states[j], states[j + 1], events[j];
    && r in s.requests && r in t.requests
    && s.requests[r].Target(s.requests[r].retry) == a && t.requests[r].retry == s.requests[r].retry + 1
    && match e {
         case DialFail(r') => r' == r
         case SendFail(r', stale) =>
           && r' == r && (s.requests[r].phase.OnFresh? || !stale)
           && var c := s.requests[r].phase.conn; s.conns[c].addr == a && t.conns[c].failed
         case _ => false
       }
  }

  lemma RetryNeedsFailure(states: seq<State>, events: seq<Event>, i: nat, r: RequestId)
    requires IsRun(states, events) && i < |events| && r in states[i].requests && r in states[i + 1].requests
    requires states[i + 1].requests[r].retry != states[i].requests[r].retry
    ensures var q := states[i].requests[r];
            states[i + 1].requests[r].retry == q.retry + 1 && FailsAt(states, events, i, r, q.Target(q.retry))
  {
    var home := RunInv(states, events, i);
    var s, e := states[i], events[i];
    assert Enabled(s, e) && states[i + 1] == Next(s, e);
    assert At(s, InRequest(r)).Some? ==> Fits(s, At(s, InRequest(r)).value, InRequest(r));
  }

  /** Every attempt before the present one has failed, at the address it was meant for. */
  lemma {:induction false} AttemptsAreUsedUp(states: seq<State>, events: seq<Event>, i: nat, r: RequestId, k: nat)
    requires IsRun(states, events) && i < |states| && r in states[i].requests && k < states[i].requests[r].retry
    ensures exists j: nat :: j < i && FailsAt(states, events, j, r, states[i].requests[r].Target(k))
    decreases i
  {
    if i > 0 {
      var s, e := states[i - 1], events[i - 1];
      assert Enabled(s, e) && states[i] == Next(s, e);
      if r in s.requests {
        RequestContinues(s, e, r);
        assert states[i].requests[r].Target(k) == s.requests[r].Target(k);
        if k < s.requests[r].retry {
          AttemptsAreUsedUp(states, events, i - 1, r, k);
        } else {
          RetryNeedsFailure(states, events, i - 1, r);
        }
      }
    }
  }

  /** An error means that every upstream failed, given the retries: a dial or a send failed at each address. */
  lemma FailedRequestTriedAll(states: seq<State>, events: seq<Event>, i: nat, r: RequestId, a: Addr)
    requires IsRun(states, events) && i < |states| && r in states[i].requests
    requires var q := states[i].requests[r];
             q.phase.Failed? && q.maxRetry + 1 >= |q.upstream| && a in q.upstream
    ensures exists j: nat :: j < i && FailsAt(states, events, j, r, a)
  {
    var home := RunInv(states, events, i);
    var q := states[i].requests[r];
    var at :| 0 <= at < |q.upstream| && q.upstream[at] == a;
    var tried := seq(q.maxRetry + 1, k requires 0 <= k => (q.first + k) % |q.upstream|);
    Proxy.AttemptsCoverUpstream(q.first, |q.upstream|, tried, at);
    var k: nat :| k < |tried| && tried[k] == at;
    assert q.Target(k) == a;
    AttemptsAreUsedUp(states, events, i, r, k);
  }

  // ---- What is lost --------------------------------------------------------------------------------------------

  /** What was dropped or leaked stays where it is and is never anywhere else again. */
  lemma {:induction false} GravesAreForGood(states: seq<State>, events: seq<Event>, i: nat, j: nat, p: Place)
    requires IsRun(states, events) && i <= j < |states|
    requires (p.InDropped? || p.InLeaked?) && At(states[i], p).Some?
    ensures At(states[j], p) == At(states[i], p)
    ensures forall q | At(states[j], q) == At(states[i], p) :: q == p
    decreases j
  {
    if i < j {
      GravesAreForGood(states, events, i, j - 1, p);
      var home := RunInv(states, events, j - 1);
      StepTracks(states[j - 1], events[j - 1], home, p);
    }
    var home := RunInv(states, events, j);
  }

  /** Every connection dialled before step `i` reports the dialled address as its peer. */
  ghost predicate DialsItsPeers(states: seq<State>, events: seq<Event>, i: nat)
    requires Steps(states, events) && i < |states|
  {
    forall j | 0 <= j < i && events[j].DialOk? ::
      events[j].peer == states[j + 1].conns[|states[j].conns|].addr
  }

  /** If every connection reports the dialled address as its peer, an address never has two pooled connections. */
  lemma {:induction false} OneSlotPerAddress(states: seq<State>, events: seq<Event>, i: nat, a: Addr)
    requires IsRun(states, events) && i < |states| && a in states[i].slots && DialsItsPeers(states, events, i)
    ensures states[i].slots[a].Keys <= {a}
  {
    PeersAreDialled(states, events, i);
    forall k | k in states[i].slots[a] ensures k == a {
      PoolIsAffine(states, events, i, a, k);
    }
  }

  lemma DialAdds(s: State, e: Event)
    requires Enabled(s, e)
    ensures |Next(s, e).conns| == |s.conns| + if e.DialOk? then 1 else 0
    ensures e.DialOk? ==> Next(s, e).conns[|s.conns|].peer == e.peer
  {
  }

  lemma {:induction false} PeersAreDialled(states: seq<State>, events: seq<Event>, i: nat)
    requires IsRun(states, events) && i < |states| && DialsItsPeers(states, events, i)
    ensures forall c | 0 <= c < |states[i].conns| :: states[i].conns[c].peer == states[i].conns[c].addr
    decreases i
  {
    if i > 0 {
      var s, e := states[i - 1], events[i - 1];
      assert Enabled(s, e) && states[i] == Next(s, e);
      PeersAreDialled(states, events, i - 1);
      StepKeepsAddresses(s, e);
      DialAdds(s, e);
    }
  }

  /** The steps that empty a slot for good: an insert or a cleanup under the same key, or a RemoveKey of the address. */
  ghost predicate Evicts(s: State, e: Event, a: Addr, k: Addr)
    requires Enabled(s, e)
  {
    || (e.BodyDrop? && s.bodies[e.r].addr == a && s.bodies[e.r].peer == k)
    || (e.TaskEnds? && s.conns[e.c].addr == a && s.conns[e.c].peer == k)
    || (e.RemoveKey? && s.conns[e.c].addr == a)
  }

  /** Connection `c` is taken out of its slot for use: by a request for that address, as its greatest peer. */
  ghost predicate Takes(s: State, e: Event, a: Addr, k: Addr, t: State, c: ConnId)
    requires Enabled(s, e)
  {
    && e.Pop? && At(t, InRequest(e.r)) == Some(c) && s.requests[e.r].Target(s.requests[e.r].retry) == a
    && a in s.slots && IsGreatest(s.slots[a].Keys, k)
  }

  /**
   In every run a pooled connection is lost by exactly the evicting steps, even when it is healthy and the step belongs
   to another connection. Otherwise it stays where it is or is taken for use.
   */
  lemma PooledUntil(states: seq<State>, events: seq<Event>, i: nat, a: Addr, k: Addr)
    requires IsRun(states, events) && i < |events| && HasSlot(states[i].slots, a, k)
    ensures var (s, t, e, c) := (states[i], states[i + 1], events[i], states[i].slots[a][k]);
            && (Evicts(s, e, a, k) <==> At(t, InLeaked(s.clock, k)) == Some(c))
            && (At(t, InSlot(a, k)) == Some(c) || Evicts(s, e, a, k) || Takes(s, e, a, k, t, c))
  {
    var home := RunInv(states, events, i);
    var s, e := states[i], events[i];
    StepTracks(s, e, home, InSlot(a, k));
    StepTracks(s, e, home, InLeaked(s.clock, k));
    assert At(s, InSlot(a, k)).Some?;
    var c := s.slots[a][k];
    StepKeepsHomes(s, e, home);
    assert home[c] == InSlot(a, k) && NewHomes(s, e, home)[c] == NewHome(s, e, InSlot(a, k));
  }

  /** Right after its own task's first cleanup step a connection is not in the pool. */
  lemma CleanedUp(states: seq<State>, events: seq<Event>, i: nat, a: Addr, k: Addr)
    requires IsRun(states, events) && i < |events| && events[i].TaskEnds? && HasSlot(states[i + 1].slots, a, k)
    ensures states[i + 1].slots[a][k] != events[i].c
  {
    var home := RunInv(states, events, i);
    var s, e := states[i], events[i];
    StepTracks(s, e, home, InSlot(a, k));
    assert At(states[i + 1], InSlot(a, k)).Some?;
    assert Fits(s, s.slots[a][k], InSlot(a, k));
  }

  /** One request that dials, succeeds and gives its connection back. */
  function RoundTrip(r: RequestId, a: Addr, peer: Addr): seq<Event> {
    [Arrive(r, [a], 0, 0), Pop(r), DialOk(r, peer), SendOk(r), BodyDrop(r)]
  }

  lemma DialRuns(s: State, r: RequestId, a: Addr, peer: Addr) returns (path: seq<State>)
    requires r !in s.requests && (a in s.slots ==> s.slots[a] == map[])
    ensures Steps(path, RoundTrip(r, a, peer)[..3]) && path[0] == s
    ensures path[3] == s.(conns := s.conns + [Conn(a, peer, Watching, false, false)], clock := s.clock + 3,
                          requests := s.requests[r := Request([a], 0, 0, 0, OnFresh(|s.conns|), 1, [])])
  {
    var es := RoundTrip(r, a, peer);
    var q := Request([a], 0, 0, 0, Looking, 0, []);
    var s1 := Next(s, es[0]);
    assert s1 == s.(clock := s.clock + 1, requests := s.requests[r := q]);
    assert q.Target(0) == a;
    var s2 := Next(s1, es[1]);
    assert s2 == s.(clock := s.clock + 2, requests := s.requests[r := q.(phase := Dialling)]);
    path := [s, s1, s2, Next(s2, es[2])];
  }

  lemma AskRuns(s: State, r: RequestId, a: Addr, peer: Addr) returns (path: seq<State>)
    requires r !in s.requests && (a in s.slots ==> s.slots[a] == map[])
    ensures Steps(path, RoundTrip(r, a, peer)[..4]) && path[0] == s
    ensures path[4].requests.Keys == s.requests.Keys + {r}
    ensures path[4] == s.(conns := s.conns + [Conn(a, peer, Watching, false, false)], clock := s.clock + 4,
                          requests := path[4].requests, bodies := s.bodies[r := Body(|s.conns|, a, peer)])
  {
    var es := RoundTrip(r, a, peer);
    var there := DialRuns(s, r, a, peer);
    var t := there[3];
    assert t.requests[r].Target(0) == a;
    JoinSteps(there, es[..3], [t, Next(t, es[3])], [es[3]]);
    assert es[..4] == es[..3] + [es[3]];
    path := there + [t, Next(t, es[3])][1..];
  }

  /** A returned connection is the only one of its address. */
  lemma RoundTripRuns(s: State, r: RequestId, a: Addr, peer: Addr) returns (path: seq<State>)
    requires r !in s.requests && (a in s.slots ==> s.slots[a] == map[])
    ensures Steps(path, RoundTrip(r, a, peer)) && path[0] == s
    ensures var t := path[5];
            && t.conns == s.conns + [Conn(a, peer, Watching, false, false)]
            && t.slots == s.slots[a := map[peer := |s.conns|]]
            && t.requests.Keys == s.requests.Keys + {r} && t.bodies == s.bodies - {r}
  {
    var es := RoundTrip(r, a, peer);
    var there := AskRuns(s, r, a, peer);
    var t := there[4];
    JoinSteps(there, es[..4], [t, Next(t, es[4])], [es[4]]);
    assert es == es[..4] + [es[4]];
    path := there + [t, Next(t, es[4])][1..];
  }

  lemma JoinSteps(p1: seq<State>, e1: seq<Event>, p2: seq<State>, e2: seq<Event>)
    requires Steps(p1, e1) && Steps(p2, e2) && p1[|e1|] == p2[0]
    ensures Steps(p1 + p2[1..], e1 + e2)
  {
    var states, events := p1 + p2[1..], e1 + e2;
    forall i {:trigger events[i]} | 0 <= i < |events|
      ensures Enabled(states[i], events[i]) && states[i + 1] == Next(states[i], events[i])
    {
      if i < |e1| {
        assert events[i] == e1[i];
      } else {
        assert events[i] == e2[i - |e1|];
      }
    }
  }

  /** A cleanup task between its two steps while another request has just given a connection back. */
  lemma RaceIsReachable(a: Addr) returns (states: seq<State>, events: seq<Event>)
    ensures IsRun(states, events)
    ensures var s := states[|events|];
            && |s.conns| == 2 && s.conns[0].addr == a && s.conns[0].task == Cleaning
            && s.conns[1] == Conn(a, a, Watching, false, false)
            && a in s.slots && s.slots[a] == map[a := 1]
  {
    var first := RoundTripRuns(INIT, 0, a, a);
    var ended := Next(first[5], TaskEnds(0));
    assert ended.slots[a] == map[] && ended.conns[0].task == Cleaning;
    var second := RoundTripRuns(ended, 1, a, a);
    JoinSteps(first, RoundTrip(0, a, a), [first[5], ended], [TaskEnds(0)]);
    JoinSteps(first + [first[5], ended][1..], RoundTrip(0, a, a) + [TaskEnds(0)], second, RoundTrip(1, a, a));
    states := first + [first[5], ended][1..] + second[1..];
    events := RoundTrip(0, a, a) + [TaskEnds(0)] + RoundTrip(1, a, a);
  }

  lemma RemoveKeyLeaks(s: State, a: Addr) returns (t: State)
    requires |s.conns| == 2 && s.conns[0].addr == a && s.conns[0].task == Cleaning
    requires a in s.slots && s.slots[a] == map[a := 1]
    ensures Steps([s, t], [RemoveKey(0)])
    ensures |t.conns| == 2 && t.conns[1] == s.conns[1] && At(t, InLeaked(s.clock, a)) == Some(1)
  {
    t := Next(s, RemoveKey(0));
    var gone := AllLeaks(s.slots, a, s.clock);
    assert (s.clock, a) in gone && gone[(s.clock, a)] == 1;
    assert t.leaked == s.leaked + gone;
  }

  /**
   The race run to its end: the task that tidies up after connection 0 throws away the healthy idle connection 1,
   which can then never be used again (see `GravesAreForGood`).
   */
  lemma RemoveKeyRaces(a: Addr) returns (states: seq<State>, events: seq<Event>)
    ensures IsRun(states, events)
    ensures var t := states[|events|];
            && |t.conns| == 2 && t.conns[1] == Conn(a, a, Watching, false, false)
            && exists since :: At(t, InLeaked(since, a)) == Some(1)
  {
    var before, es := RaceIsReachable(a);
    var s := before[|es|];
    var t := RemoveKeyLeaks(s, a);
    JoinSteps(before, es, [s, t], [RemoveKey(0)]);
    states := before + [s, t][1..];
    events := es + [RemoveKey(0)];
    assert states[|events|] == t;
  }
}
