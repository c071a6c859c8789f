/** The HTTP/3 response relay: head, then one DATA frame per body frame, then the end of the stream. */
module H3Relay {
  import opened Basics
  import opened S2nQuic
  import opened S2nQuicRuns

  /** What the upstream body yields: a data frame, a frame without data, or an error. */
  datatype BodyItem = Data(payload: Bytes) | Trailers | Broken

  datatype Outcome = Complete | BodyError | StreamError | InternalError | Cancelled

  /** The encoded frames of a body, in order. */
  ghost function Relayed(encode: Bytes -> WriteBuf, body: seq<BodyItem>): Bytes {
    if body == [] then [] else
    var last := body[|body| - 1];
    Relayed(encode, body[..|body| - 1]) + if last.Data? then encode(last.payload).Bytes() else []
  }

  /** The part of the body in front of its first error. */
  ghost function Readable(body: seq<BodyItem>): seq<BodyItem> {
    if body == [] || body[0] == Broken then [] else [body[0]] + Readable(body[1..])
  }

  lemma {:induction false} ReadableIs(body: seq<BodyItem>, n: nat)
    requires n <= |body| && Broken !in body[..n] && (n < |body| ==> body[n] == Broken)
    ensures Readable(body) == body[..n]
  {
    if n > 0 {
      assert body[..n][0] == body[0] && body[1..][..n - 1] == body[..n][1..];
      ReadableIs(body[1..], n - 1);
    }
  }

  lemma {:induction false} ReadableHas(body: seq<BodyItem>, n: nat)
    requires n <= |body| && Broken !in body[..n]
    ensures n <= |Readable(body)| && Readable(body)[..n] == body[..n]
  {
    if n > 0 {
      assert body[..n][0] == body[0] && body[1..][..n - 1] == body[..n][1..];
      ReadableHas(body[1..], n - 1);
    }
  }

  /** Frames only ever add to the end of the encoded body. */
  lemma {:induction false} RelayedGrows(encode: Bytes -> WriteBuf, body: seq<BodyItem>, n: nat)
    requires n <= |body|
    ensures Relayed(encode, body[..n]) <= Relayed(encode, body)
    decreases |body|
  {
    if n == |body| {
      assert body[..n] == body;
    } else {
      assert body[..|body| - 1][..n] == body[..n];
      RelayedGrows(encode, body[..|body| - 1], n);
    }
  }

  /** Nothing waits in front of the QUIC stream, and `bytes` is what the peer got. */
  ghost predicate Flat(send: SendStream, bytes: Bytes)
    reads send, send.stream
  {
    send.Abstract() == State(None, None, send.stream.wire) && send.stream.wire.delivered == bytes
  }

  ghost function BlockedSince(send: SendStream, poll: nat): nat
    reads send, send.stream
    requires poll <= send.stream.wire.polls
  {
    CountBlocked(send.stream.oracle, poll, send.stream.wire.polls)
  }

  /** Did the QUIC stream fail at one of the polls since then? */
  ghost predicate FailedSince(send: SendStream, poll: nat)
    reads send, send.stream
  {
    exists k: nat :: poll <= k < send.stream.wire.polls && send.stream.oracle.replies(k) == Failed
  }

  /** Was the QUIC stream asked to finish since then, and refused? */
  ghost predicate FinishRefused(send: SendStream, calls: nat)
    reads send, send.stream
  {
    send.stream.wire.finishCalls > calls && !send.stream.oracle.finishes(calls)
  }

  /** The QUIC stream is asked to finish at most once, with all these bytes delivered, and its answer is the result. */
  ghost predicate FinishTried(send: SendStream, calls: nat, result: Outcome, bytes: Bytes)
    reads send, send.stream
  {
    var w := send.stream.wire;
    && calls <= w.finishCalls <= calls + 1 && (result == Complete ==> w.finishCalls == calls + 1)
    && (w.finishCalls == calls + 1 ==>
          w.delivered == bytes && result == if send.stream.oracle.finishes(calls) then Complete else StreamError)
  }

  /**
   Hand over the data, then poll until it is flushed. Each Pending costs one of the `wakes` that the task gets
   before it is dropped. If earlier data still waits the stream refuses, and nothing happens.
   */
  method Write(send: SendStream, data: WriteBuf, wakes: nat) returns (result: Outcome, left: nat)
    requires send.Valid() && send.stream.wire.status == Open
    modifies send, send.stream
    ensures send.Valid() && send.stream.wire.status == Open
    ensures old(send.stream.wire).delivered <= send.stream.wire.delivered
    ensures send.stream.wire.delivered <= old(send.stream.wire).delivered + data.Bytes()
    ensures result in {Complete, StreamError, InternalError, Cancelled}
    ensures result == InternalError <==> old(send.buf).Some?
    ensures result == InternalError ==> send.Abstract() == old(send.Abstract())
    ensures result == StreamError ==> FailedSince(send, old(send.stream.wire).polls)
    ensures send.stream.wire.finishCalls == old(send.stream.wire).finishCalls
    ensures result == Complete ==> Flat(send, old(send.stream.wire).delivered + data.Bytes())
    ensures old(send.stream.wire).polls <= send.stream.wire.polls
    ensures left + BlockedSince(send, old(send.stream.wire).polls) == wakes + if result == Cancelled then 1 else 0
    ensures result == Cancelled ==> left == 0
  {
    left := wakes;
    ghost var start := send.Abstract();
    var accepted := send.SendData(data);
    if !accepted {
      return InternalError, left;
    }
    ghost var total := start.wire.delivered + data.Bytes();
    assert Queue(send.Abstract()) == data.pieces;
    while true
      invariant send.Valid() && send.stream.wire.status == Open
      invariant send.stream.wire.finishCalls == start.wire.finishCalls
      invariant Written(send.Abstract()) == total && start.wire.delivered <= send.stream.wire.delivered
      invariant start.wire.polls <= send.stream.wire.polls
      invariant left + BlockedSince(send, start.wire.polls) == wakes
      decreases left
    {
      ghost var before := send.Abstract();
      var poll := send.PollReady();
      Polled(before, send.stream.oracle, start.wire.polls);
      if poll == Ready {
        return Complete, left;
      }
      if poll == Error {
        return StreamError, left;
      }
      if left == 0 {
        return Cancelled, left;
      }
      left := left - 1;
    }
  }

  /** Poll the end of the stream until it is accepted; what is still waiting goes first. */
  method Finish(send: SendStream, wakes: nat) returns (result: Outcome)
    requires send.Valid() && send.stream.wire.status == Open
    modifies send, send.stream
    ensures send.Valid()
    ensures old(send.stream.wire).delivered <= send.stream.wire.delivered <= old(Written(send.Abstract()))
    ensures result in {Complete, StreamError, Cancelled}
    ensures result == Complete ==> send.stream.wire.delivered == old(Written(send.Abstract()))
    ensures result == Complete <==> send.stream.wire.status == Finished
    ensures old(send.stream.wire).polls <= send.stream.wire.polls
    ensures result == Cancelled <==> BlockedSince(send, old(send.stream.wire).polls) > wakes
    ensures result == StreamError ==>
              || FailedSince(send, old(send.stream.wire).polls)
              || FinishRefused(send, old(send.stream.wire).finishCalls)
    ensures send.stream.wire.status == if result == Complete then Finished else Open
    ensures FinishTried(send, old(send.stream.wire).finishCalls, result, old(Written(send.Abstract())))
  {
    var left: nat := wakes;
    ghost var start := send.Abstract();
    while true
      invariant send.Valid() && send.stream.wire.status == Open
      invariant send.stream.wire.finishCalls == start.wire.finishCalls
      invariant Written(send.Abstract()) == Written(start)
      invariant start.wire.delivered <= send.stream.wire.delivered
      invariant start.wire.polls <= send.stream.wire.polls
      invariant left + BlockedSince(send, start.wire.polls) == wakes
      decreases left
    {
      ghost var before := send.Abstract();
      var poll := send.PollFinish();
      Polled(before, send.stream.oracle, start.wire.polls);
      if poll == Ready {
        return Complete;
      }
      if poll == Error {
        return StreamError;
      }
      if left == 0 {
        return Cancelled;
      }
      left := left - 1;
    }
  }

  lemma Polled(s: State, o: Oracle, start: nat)
    requires Inv(s) && s.wire.status == Open && start <= s.wire.polls
    ensures var (t, p) := Flushed(s, o);
            && t.wire.status == Open && s.wire.polls <= t.wire.polls
            && Written(t) == Written(s) && s.wire.delivered <= t.wire.delivered
            && t.wire.finishCalls == s.wire.finishCalls
            && (p == Ready ==> t == State(None, None, t.wire) && t.wire.delivered == Written(t))
            && (p == Error ==> s.wire.polls < t.wire.polls && o.replies(t.wire.polls - 1) == Failed)
            && CountBlocked(o, start, t.wire.polls)
               == CountBlocked(o, start, s.wire.polls) + if p == Pending then 1 else 0
  {
    FlushKeepsWritten(s, o);
    FlushCountsBlocked(s, o);
    CountSplits(o, start, s.wire.polls, Flushed(s, o).0.wire.polls);
  }

  /** The head and the readable part of the body, as they go over the wire. */
  ghost function Response(head: WriteBuf, encode: Bytes -> WriteBuf, body: seq<BodyItem>): Bytes {
    head.Bytes() + Relayed(encode, Readable(body))
  }

  /** The frames relayed so far are the front of what the readable body encodes to. */
  lemma PartOfBody(encode: Bytes -> WriteBuf, body: seq<BodyItem>, n: nat)
    requires n <= |body| && Broken !in body[..n]
    ensures Relayed(encode, body[..n]) <= Relayed(encode, Readable(body))
  {
    ReadableHas(body, n);
    RelayedGrows(encode, Readable(body), n);
  }

  lemma NextFrame(sent: Bytes, encode: Bytes -> WriteBuf, body: seq<BodyItem>, n: nat)
    requires n < |body|
    ensures sent + Relayed(encode, body[..n + 1]) ==
            sent + Relayed(encode, body[..n]) + if body[n].Data? then encode(body[n].payload).Bytes() else []
  {
    assert body[..n + 1][..n] == body[..n];
  }

  /** The loop over the body's frames, up to its end or its first error. */
  method RelayBody(send: SendStream, body: seq<BodyItem>, encode: Bytes -> WriteBuf, wakes: nat)
    returns (result: Outcome, left: nat)
    requires Flat(send, send.stream.wire.delivered) && send.stream.wire.status == Open
    modifies send, send.stream
    ensures send.Valid() && send.stream.wire.status == Open
    ensures send.stream.wire.delivered <= old(send.stream.wire).delivered + Relayed(encode, Readable(body))
    ensures result in {Complete, BodyError, StreamError, Cancelled}
    ensures result == Complete || result == BodyError ==>
              Flat(send, old(send.stream.wire).delivered + Relayed(encode, Readable(body)))
    ensures result == Complete ==> Broken !in body
    ensures result == BodyError ==> Broken in body
    ensures result == StreamError ==> FailedSince(send, old(send.stream.wire).polls)
    ensures send.stream.wire.finishCalls == old(send.stream.wire).finishCalls
    ensures old(send.stream.wire).polls <= send.stream.wire.polls
    ensures left + BlockedSince(send, old(send.stream.wire).polls) == wakes + if result == Cancelled then 1 else 0
    ensures result == Cancelled ==> left == 0
  {
    ghost var o, start, sent := send.stream.oracle, send.stream.wire.polls, send.stream.wire.delivered;
    left := wakes;
    result := Complete;
    var i := 0;
    while i < |body|
      invariant i <= |body| && Broken !in body[..i]
      invariant Flat(send, sent + Relayed(encode, body[..i])) && send.stream.wire.status == Open
      invariant start <= send.stream.wire.polls && left + BlockedSince(send, start) == wakes
      invariant result == Complete && send.stream.wire.finishCalls == old(send.stream.wire).finishCalls
    {
      var frame := body[i];
      if frame == Broken {
        ReadableIs(body, i);
        return BodyError, left;
      }
      PartOfBody(encode, body, i + 1);
      NextFrame(sent, encode, body, i);
      if frame.Data? {
        ghost var mid := send.stream.wire.polls;
        result, left := Write(send, encode(frame.payload), left);
        CountSplits(o, start, mid, send.stream.wire.polls);
        if result != Complete {
          return;
        }
      }
      i := i + 1;
    }
    ReadableIs(body, i);
    assert body[..i] == body;
  }

  /**
   Whatever happens, the peer got a prefix of the response. It got all of it when the relay completes, which is
   exactly when the stream is closed with FIN, and when the body broke off. The guard in `send_data` never fires. A
   stream error has a cause; so a sound body over a healthy stream is always relayed to the end.
   */
  method HandleReq(send: SendStream, head: WriteBuf, body: seq<BodyItem>, encode: Bytes -> WriteBuf, wakes: nat)
    returns (result: Outcome)
    requires Flat(send, []) && send.stream.wire.status == Open
    modifies send, send.stream
    ensures send.stream.wire.delivered <= Response(head, encode, body)
    ensures result == Complete || result == BodyError ==>
              send.stream.wire.delivered == Response(head, encode, body)
    ensures result == Complete <==> send.stream.wire.status == Finished
    ensures result != Complete ==> send.stream.wire.status == Open
    ensures FinishTried(send, old(send.stream.wire).finishCalls, result, Response(head, encode, body))
    ensures send.stream.wire.finishCalls > old(send.stream.wire).finishCalls ==> Broken !in body
    ensures result == Complete ==> Broken !in body
    ensures result == BodyError ==> Broken in body
    ensures result != InternalError
    ensures result == StreamError ==>
              || FailedSince(send, old(send.stream.wire).polls)
              || FinishRefused(send, old(send.stream.wire).finishCalls)
    ensures NoFailureFrom(send.stream.oracle, old(send.stream.wire).polls)
            && send.stream.oracle.finishes(old(send.stream.wire).finishCalls)
            && BlocksAtMost(send.stream.oracle, old(send.stream.wire).polls, wakes)
            ==> result == if Broken in body then BodyError else Complete
    ensures old(send.stream.wire).polls <= send.stream.wire.polls
    ensures result == Cancelled <==> BlockedSince(send, old(send.stream.wire).polls) > wakes
  {
    ghost var o, start := send.stream.oracle, send.stream.wire.polls;
    assert [] + head.Bytes() == head.Bytes();
    var left: nat;
    result, left := Write(send, head, wakes);
    if result != Complete {
      return;
    }
    ghost var mid := send.stream.wire.polls;
    result, left := RelayBody(send, body, encode, left);
    CountSplits(o, start, mid, send.stream.wire.polls);
    if result != Complete {
      return;
    }
    mid := send.stream.wire.polls;
    result := Finish(send, left);
    CountSplits(o, start, mid, send.stream.wire.polls);
  }
}
