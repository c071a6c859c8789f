/** What holds over whole runs of a send stream, under every schedule of the QUIC stream. */
module S2nQuicRuns {
  import opened Basics
  import opened S2nQuic

  datatype Call = SendData(data: WriteBuf) | PollReady | PollFinish | Reset

  datatype Answer = Accepted | Refused | Polled(poll: Poll) | Done

  const INITIAL := State(None, None, Wire([], 0, 0, Open))

  /** One call, as the methods of `S2nQuic.SendStream` specify it. */
  ghost function Step(s: State, o: Oracle, call: Call): (r: (State, Answer))
    requires Inv(s)
    ensures Inv(r.0)
  {
    match call
    case SendData(data) => if s.buf.Some? then (s, Refused) else (s.(buf := Some(data)), Accepted)
    case PollReady => var (t, p) := Flushed(s, o); (t, Polled(p))
    case PollFinish => var (t, p) := FinishedBy(s, o); (t, Polled(p))
    case Reset => (s.(wire := s.wire.(status := if s.wire.status == Open then Aborted else s.wire.status)), Done)
  }

  /** The methods do what `Step` says. */
  method Perform(send: SendStream, call: Call) returns (answer: Answer)
    requires send.Valid()
    modifies send, send.stream
    ensures send.Valid()
    ensures (send.Abstract(), answer) == Step(old(send.Abstract()), send.stream.oracle, call)
  {
    match call
    case SendData(data) =>
      var accepted := send.SendData(data);
      answer := if accepted then Accepted else Refused;
    case PollReady =>
      var poll := send.PollReady();
      answer := Polled(poll);
    case PollFinish =>
      var poll := send.PollFinish();
      answer := Polled(poll);
    case Reset =>
      send.Reset();
      answer := Done;
  }

  datatype Execution = Execution(state: State, answers: seq<Answer>)

  ghost function Execute(o: Oracle, calls: seq<Call>): (e: Execution)
    ensures Inv(e.state) && |e.answers| == |calls|
  {
    if calls == [] then Execution(INITIAL, []) else
    var e := Execute(o, calls[..|calls| - 1]);
    var (s, a) := Step(e.state, o, calls[|calls| - 1]);
    Execution(s, e.answers + [a])
  }

  /** The bytes of every accepted `send_data`, in order. */
  ghost function AcceptedBytes(calls: seq<Call>, answers: seq<Answer>): Bytes
    requires |calls| == |answers|
  {
    if calls == [] then [] else
    var n := |calls| - 1;
    AcceptedBytes(calls[..n], answers[..n]) + Contribution(calls[n], answers[n])
  }

  ghost function Contribution(call: Call, answer: Answer): Bytes {
    if call.SendData? && answer == Accepted then call.data.Bytes() else []
  }

  /** Everything on the stream or on its way there. */
  ghost function Written(s: State): Bytes {
    s.wire.delivered + Concat(Queue(s))
  }

  /** A flush moves the front of the queue to the stream. */
  lemma FlushMoves(s: State, o: Oracle) returns (k: nat)
    requires Inv(s)
    ensures var q, (t, p) := Queue(s), Flushed(s, o);
            && k <= |q| && Queue(t) == q[k..]
            && t.wire.delivered == s.wire.delivered + Concat(q[..k])
            && (p == Ready <==> k == |q|)
            && (s.wire.status != Open ==> k == 0)
  {
    k := LeadingTaken(o, s.wire.status, s.wire.polls, |Queue(s)|);
  }

  lemma FlushKeepsWritten(s: State, o: Oracle)
    requires Inv(s)
    ensures var t := Flushed(s, o).0;
            && Written(t) == Written(s)
            && s.wire.delivered <= t.wire.delivered
            && (s.wire.status != Open ==> t.wire.delivered == s.wire.delivered)
  {
    var q := Queue(s);
    var k := FlushMoves(s, o);
    ConcatSplit(q, k);
    AppendAssociates(s.wire.delivered, Concat(q[..k]), Concat(q[k..]));
    if k == 0 {
      assert Concat(q[..k]) == [];
    }
  }

  lemma StepKeepsWritten(s: State, o: Oracle, call: Call)
    requires Inv(s)
    ensures var (t, a) := Step(s, o, call);
            && Written(t) == Written(s) + Contribution(call, a)
            && s.wire.delivered <= t.wire.delivered
  {
    FlushKeepsWritten(s, o);
    var (t, a) := Step(s, o, call);
    match call
    case SendData(data) =>
      if a == Accepted {
        assert Queue(s) == [] && Queue(t) == data.pieces;
      }
    case PollReady =>
    case PollFinish =>
    case Reset =>
      assert Queue(t) == Queue(s);
  }

  /**
   Byte conservation: after any calls, under any schedule, what was delivered followed by the chunk and the
   buffer is what was accepted. So nothing is lost, repeated or overtaken on the way to the peer.
   */
  lemma {:induction false} RunConserves(o: Oracle, calls: seq<Call>)
    ensures var e := Execute(o, calls);
            Written(e.state) == AcceptedBytes(calls, e.answers)
  {
    if calls != [] {
      var n := |calls| - 1;
      RunConserves(o, calls[..n]);
      var e, e' := Execute(o, calls), Execute(o, calls[..n]);
      assert e.answers[..n] == e'.answers;
      StepKeepsWritten(e'.state, o, calls[n]);
    }
  }

  lemma LastStep(o: Oracle, calls: seq<Call>, more: seq<Call>)
    requires more != []
    ensures var n := |more| - 1;
            Execute(o, calls + more).state == Step(Execute(o, calls + more[..n]).state, o, more[n]).0
  {
    var n := |more| - 1;
    assert (calls + more)[..|calls + more| - 1] == calls + more[..n];
  }

  /** What the peer has is a prefix of what was accepted, and only ever grows at its end. */
  lemma {:induction false} DeliveredIsPrefix(o: Oracle, calls: seq<Call>, more: seq<Call>)
    ensures var e, f := Execute(o, calls), Execute(o, calls + more);
            && e.state.wire.delivered <= AcceptedBytes(calls, e.answers)
            && e.state.wire.delivered <= f.state.wire.delivered
    decreases more
  {
    if more == [] {
      RunConserves(o, calls);
      assert calls + more == calls;
    } else {
      var n := |more| - 1;
      DeliveredIsPrefix(o, calls, more[..n]);
      LastStep(o, calls, more);
      StepKeepsWritten(Execute(o, calls + more[..n]).state, o, more[n]);
    }
  }

  ghost predicate EndsReady(o: Oracle, calls: seq<Call>) {
    calls != [] && Execute(o, calls).answers[|calls| - 1] == Polled(Ready)
  }

  /** A poll that answers Ready has delivered everything accepted so far. */
  lemma ReadyMeansDelivered(o: Oracle, calls: seq<Call>)
    requires EndsReady(o, calls)
    ensures var e := Execute(o, calls);
            e.state.wire.delivered == AcceptedBytes(calls, e.answers)
  {
    RunConserves(o, calls);
    var n := |calls| - 1;
    var k := FlushMoves(Execute(o, calls[..n]).state, o);
    assert Queue(Execute(o, calls).state) == [];
  }

  /** Schedule independence: runs that accepted the same bytes and end ready delivered the same bytes. */
  lemma SchedulesAgree(o1: Oracle, calls1: seq<Call>, o2: Oracle, calls2: seq<Call>)
    requires EndsReady(o1, calls1) && EndsReady(o2, calls2)
    requires AcceptedBytes(calls1, Execute(o1, calls1).answers) == AcceptedBytes(calls2, Execute(o2, calls2).answers)
    ensures Execute(o1, calls1).state.wire.delivered == Execute(o2, calls2).state.wire.delivered
  {
    ReadyMeansDelivered(o1, calls1);
    ReadyMeansDelivered(o2, calls2);
  }

  /**
   Nothing is cut off by the end of the stream: when `poll_finish` answers Ready the peer has every accepted
   byte, and no later call, whatever it is answered, delivers another one.
   */
  lemma {:induction false} FinishCarriesEverything(o: Oracle, calls: seq<Call>, more: seq<Call>)
    requires EndsReady(o, calls) && calls[|calls| - 1] == PollFinish
    ensures var e, f := Execute(o, calls), Execute(o, calls + more);
            && f.state.wire.status == Finished
            && f.state.wire.delivered == AcceptedBytes(calls, e.answers)
    decreases more
  {
    if more == [] {
      ReadyMeansDelivered(o, calls);
      assert calls + more == calls;
    } else {
      var n := |more| - 1;
      FinishCarriesEverything(o, calls, more[..n]);
      LastStep(o, calls, more);
      StepAfterFinish(Execute(o, calls + more[..n]).state, o, more[n]);
    }
  }

  lemma StepAfterFinish(s: State, o: Oracle, call: Call)
    requires Inv(s) && s.wire.status == Finished
    ensures var t := Step(s, o, call).0;
            t.wire.status == Finished && t.wire.delivered == s.wire.delivered
  {
    FlushKeepsWritten(s, o);
  }

  /** How a stream was closed, if it was: by a finish that answered Ready, or by a reset, whichever came first. */
  ghost function Closed(calls: seq<Call>, answers: seq<Answer>): Status
    requires |calls| == |answers|
  {
    if calls == [] then Open else
    var n := |calls| - 1;
    ClosedBy(Closed(calls[..n], answers[..n]), calls[n], answers[n])
  }

  ghost function ClosedBy(before: Status, call: Call, answer: Answer): Status {
    if before != Open then before
    else if call == PollFinish && answer == Polled(Ready) then Finished
    else if call == Reset then Aborted else Open
  }

  lemma StepCloses(s: State, o: Oracle, call: Call)
    requires Inv(s)
    ensures var (t, a) := Step(s, o, call);
            && t.wire.status == ClosedBy(s.wire.status, call, a)
            && (call == PollFinish && a == Polled(Ready) ==> s.wire.status == Open)
  {
    assert Flushed(s, o).0.wire.status == s.wire.status;
  }

  /** The stream is finished, reset or open exactly by that history, and a closed one never answers a finish Ready. */
  lemma {:induction false} StatusIsHistory(o: Oracle, calls: seq<Call>)
    ensures var e := Execute(o, calls);
            && e.state.wire.status == Closed(calls, e.answers)
            && (calls != [] && calls[|calls| - 1] == PollFinish && EndsReady(o, calls) ==>
                  Execute(o, calls[..|calls| - 1]).state.wire.status == Open)
  {
    if calls != [] {
      var n := |calls| - 1;
      var before, after := Execute(o, calls[..n]), Execute(o, calls);
      StatusIsHistory(o, calls[..n]);
      StepCloses(before.state, o, calls[n]);
      assert after.answers[..n] == before.answers && after.answers[n] == Step(before.state, o, calls[n]).1;
    }
  }

  /**
   Has a buffer been accepted that no poll has flushed since? A poll has flushed when it answers Ready, or when
   `poll_finish` got as far as asking the QUIC stream to finish.
   */
  ghost predicate Busy(o: Oracle, calls: seq<Call>) {
    if calls == [] then false else
    var n := |calls| - 1;
    var before, after := Execute(o, calls[..n]).state, Execute(o, calls);
    if calls[n].SendData? then Busy(o, calls[..n]) || after.answers[n] == Accepted
    else Busy(o, calls[..n]) && after.answers[n] != Polled(Ready)
         && after.state.wire.finishCalls == before.wire.finishCalls
  }

  /** The guard of `send_data` looks at `buf` only, and still refuses exactly while data is unflushed. */
  lemma {:induction false} GuardIsExact(o: Oracle, calls: seq<Call>)
    ensures var s := Execute(o, calls).state;
            && (s.buf.Some? <==> Busy(o, calls))
            && (Queue(s) != [] ==> Busy(o, calls))
            && (forall data :: Step(s, o, SendData(data)).1 == if Busy(o, calls) then Refused else Accepted)
  {
    if calls != [] {
      var n := |calls| - 1;
      GuardIsExact(o, calls[..n]);
      StepMovesBuf(Execute(o, calls[..n]).state, o, calls[n]);
    }
  }

  lemma StepMovesBuf(s: State, o: Oracle, call: Call)
    requires Inv(s)
    ensures var (t, a) := Step(s, o, call);
            t.buf.Some? <==> if call.SendData? then s.buf.Some? || a == Accepted
                             else s.buf.Some? && a != Polled(Ready) && t.wire.finishCalls == s.wire.finishCalls
  {
  }

  /** The states between polls in a row that all answer Pending. */
  ghost predicate PendingPolls(o: Oracle, path: seq<State>) {
    && path != []
    && (forall i | 0 <= i < |path| :: Inv(path[i]) && path[i].wire.status == Open)
    && (forall i | 0 < i < |path| :: Flushed(path[i - 1], o) == (path[i], Pending))
  }

  ghost function CountBlocked(o: Oracle, from: nat, upto: nat): nat
    requires from <= upto
    decreases upto
  {
    if from == upto then 0 else CountBlocked(o, from, upto - 1) + if o.replies(upto - 1) == Blocked then 1 else 0
  }

  lemma {:induction false} CountSplits(o: Oracle, from: nat, mid: nat, upto: nat)
    requires from <= mid <= upto
    ensures CountBlocked(o, from, upto) == CountBlocked(o, from, mid) + CountBlocked(o, mid, upto)
    decreases upto
  {
    if mid < upto {
      CountSplits(o, from, mid, upto - 1);
    }
  }

  lemma {:induction false} TakenAreNotBlocked(o: Oracle, poll: nat, n: nat)
    ensures CountBlocked(o, poll, poll + LeadingTaken(o, Open, poll, n)) == 0
    decreases n
  {
    var k := LeadingTaken(o, Open, poll, n);
    if k > 0 {
      TakenAreNotBlocked(o, poll + 1, n - 1);
      CountSplits(o, poll, poll + 1, poll + k);
      assert CountBlocked(o, poll, poll) == 0;
    }
  }

  lemma RoundCountsBlocked(o: Oracle, poll: nat, n: nat)
    ensures var k := LeadingTaken(o, Open, poll, n);
            CountBlocked(o, poll, poll + k + if k < n then 1 else 0)
            == if k < n && o.replies(poll + k) == Blocked then 1 else 0
  {
    TakenAreNotBlocked(o, poll, n);
  }

  /** A flush uses up one Blocked answer if it answers Pending, and none if it answers Ready. */
  lemma FlushCountsBlocked(s: State, o: Oracle)
    requires Inv(s) && s.wire.status == Open
    ensures var (t, p) := Flushed(s, o);
            && t.wire.status == Open && s.wire.polls <= t.wire.polls
            && CountBlocked(o, s.wire.polls, t.wire.polls) == (if p == Pending then 1 else 0)
            && (p == Error ==> s.wire.polls < t.wire.polls && o.replies(t.wire.polls - 1) == Failed)
  {
    var poll, n := s.wire.polls, |Queue(s)|;
    var k := LeadingTaken(o, Open, poll, n);
    RoundCountsBlocked(o, poll, n);
    assert Flushed(s, o).0.wire.polls == poll + k + if k < n then 1 else 0;
    assert Flushed(s, o).1 == if k == n then Ready else if o.replies(poll + k) == Blocked then Pending else Error;
  }

  /** While no poll answers Ready, each one costs the stream exactly one Blocked answer. */
  lemma {:induction false} EveryPendingIsPaid(o: Oracle, path: seq<State>)
    requires PendingPolls(o, path)
    ensures var first, last := path[0].wire.polls, path[|path| - 1].wire.polls;
            first <= last && CountBlocked(o, first, last) == |path| - 1
  {
    var n := |path| - 1;
    if n > 0 {
      EveryPendingIsPaid(o, path[..n]);
      FlushCountsBlocked(path[n - 1], o);
      CountSplits(o, path[0].wire.polls, path[n - 1].wire.polls, path[n].wire.polls);
    }
  }

  ghost predicate NoFailureFrom(o: Oracle, poll: nat) {
    forall i: nat | i >= poll :: o.replies(i) != Failed
  }

  ghost predicate BlocksAtMost(o: Oracle, poll: nat, p: nat) {
    forall m: nat | m >= poll :: CountBlocked(o, poll, m) <= p
  }

  lemma OneMorePoll(o: Oracle, path: seq<State>, p: nat)
    requires PendingPolls(o, path) && Flushed(path[|path| - 1], o).1 != Ready
    requires NoFailureFrom(o, path[0].wire.polls) && BlocksAtMost(o, path[0].wire.polls, p)
    ensures PendingPolls(o, path + [Flushed(path[|path| - 1], o).0]) && |path| <= p
  {
    EveryPendingIsPaid(o, path);
    FlushCountsBlocked(path[|path| - 1], o);
    EveryPendingIsPaid(o, path + [Flushed(path[|path| - 1], o).0]);
  }

  /** On a stream that does not fail and blocks at most `p` more times, one of the next `p + 1` polls is Ready. */
  lemma ReadyWithin(s: State, o: Oracle, p: nat) returns (path: seq<State>)
    requires Inv(s) && s.wire.status == Open
    requires NoFailureFrom(o, s.wire.polls) && BlocksAtMost(o, s.wire.polls, p)
    ensures PendingPolls(o, path) && path[0] == s && |path| <= p + 1
    ensures Flushed(path[|path| - 1], o).1 == Ready
  {
    path := [s];
    while Flushed(path[|path| - 1], o).1 != Ready
      invariant PendingPolls(o, path) && path[0] == s && |path| <= p + 1
      decreases p + 1 - |path|
    {
      OneMorePoll(o, path, p);
      path := path + [Flushed(path[|path| - 1], o).0];
    }
  }
}
