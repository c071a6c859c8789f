/**
 The send half of an HTTP/3 stream: a two-slot pipeline (`chunk`, `buf`) in front of a QUIC stream.

 The QUIC stream is an oracle. Every `poll_send` is answered by the next reply of an arbitrary schedule:
 the chunk is taken whole, the caller must wait, or the stream has failed. A `WriteBuf` is given by the
 pieces that its successive `chunk()` calls expose; none is empty, so `chunk()` is empty only at the end.
 */
module S2nQuic {
  import opened Basics

  datatype Reply = Blocked | Taken | Failed

  datatype Oracle = Oracle(replies: nat -> Reply, finishes: nat -> bool)

  datatype Poll = Pending | Ready | Error

  datatype Status = Open | Finished | Aborted

  /** The QUIC stream as the peer sees it, with the number of oracle answers used up so far. */
  datatype Wire = Wire(delivered: Bytes, polls: nat, finishCalls: nat, status: Status)

  predicate NoneEmpty(pieces: seq<Bytes>) {
    forall i | 0 <= i < |pieces| :: pieces[i] != []
  }

  datatype RawBuf = WriteBuf(pieces: seq<Bytes>) {
    predicate NoEmptyPiece() {
      NoneEmpty(pieces)
    }

    function Chunk(): Bytes {
      if pieces == [] then [] else pieces[0]
    }

    function Bytes(): Bytes {
      Concat(pieces)
    }
  }

  type WriteBuf = b: RawBuf | b.NoEmptyPiece() witness WriteBuf([])

  datatype State = State(chunk: Option<Bytes>, buf: Option<WriteBuf>, wire: Wire)

  /** What the three methods silently rely on: a chunk is only ever cut from a buffer that is still present. */
  ghost predicate Inv(s: State) {
    s.chunk.Some? ==> s.buf.Some? && s.chunk.value != []
  }

  /** The pieces accepted but not yet delivered, oldest first. */
  ghost function Queue(s: State): (q: seq<Bytes>)
    ensures Inv(s) ==> NoneEmpty(q)
  {
    (if s.chunk.Some? then [s.chunk.value] else []) + (if s.buf.Some? then s.buf.value.pieces else [])
  }

  /** The buffer left once its first piece has been copied out. */
  function Tail(pieces: seq<Bytes>): (rest: WriteBuf)
    requires |pieces| > 0 && NoneEmpty(pieces)
    ensures rest.pieces == pieces[1..]
  {
    WriteBuf(pieces[1..])
  }

  /** The answer to `poll_send` number `poll`: a closed stream takes nothing. */
  function ReplyTo(o: Oracle, status: Status, poll: nat): Reply {
    if status == Open then o.replies(poll) else Failed
  }

  function AfterTaking(w: Wire, chunk: Bytes): Wire {
    w.(polls := w.polls + 1, delivered := w.delivered + chunk)
  }

  /** How many of the next `n` sends are taken before one is not. */
  ghost function LeadingTaken(o: Oracle, status: Status, poll: nat, n: nat): (k: nat)
    ensures k <= n
    ensures k < n ==> ReplyTo(o, status, poll + k) != Taken
    decreases n
  {
    if n == 0 || ReplyTo(o, status, poll) != Taken then 0 else 1 + LeadingTaken(o, status, poll + 1, n - 1)
  }

  /**
   Flushing, said without the loop: the pieces leave in order until the stream stops taking them. The piece it
   stopped at waits in the chunk slot, the later ones in the buffer.
   */
  ghost function Flushed(s: State, o: Oracle): (r: (State, Poll))
    requires Inv(s)
    ensures Inv(r.0)
  {
    FlushedQueue(Queue(s), s.wire, o)
  }

  ghost function FlushedQueue(q: seq<Bytes>, w: Wire, o: Oracle): (r: (State, Poll))
    requires NoneEmpty(q)
    ensures Inv(r.0)
  {
    var k := LeadingTaken(o, w.status, w.polls, |q|);
    var w' := w.(delivered := w.delivered + Concat(q[..k]), polls := w.polls + k);
    if k == |q| then
      (State(None, None, w'), Ready)
    else
      (State(Some(q[k]), Some(Tail(q[k..])), w'.(polls := w'.polls + 1)),
       if ReplyTo(o, w'.status, w'.polls) == Blocked then Pending else Error)
  }

  /** The passes of the flush loop. */
  ghost function FlushLoop(s: State, o: Oracle): (r: (State, Poll))
    requires Inv(s)
    decreases if s.buf.Some? then |s.buf.value.pieces| else 0
  {
    var reply := if s.chunk.Some? then ReplyTo(o, s.wire.status, s.wire.polls) else Taken;
    if reply != Taken then
      (s.(wire := s.wire.(polls := s.wire.polls + 1)), if reply == Blocked then Pending else Error)
    else
      var w := if s.chunk.Some? then AfterTaking(s.wire, s.chunk.value) else s.wire;
      if s.buf.Some? && s.buf.value.pieces != [] then
        FlushLoop(State(Some(s.buf.value.pieces[0]), Some(Tail(s.buf.value.pieces)), w), o)
      else
        (State(None, None, w), Ready)
  }

  lemma {:induction false} LoopIsFlushed(s: State, o: Oracle)
    requires Inv(s)
    ensures FlushLoop(s, o) == Flushed(s, o)
    decreases if s.buf.Some? then |s.buf.value.pieces| else 0
  {
    var q := Queue(s);
    if s.chunk.Some? {
      if ReplyTo(o, s.wire.status, s.wire.polls) != Taken {
        FirstNotTaken(q, s.wire, o);
        assert s.buf.value == Tail(q);
        return;
      }
      FirstTaken(q, s.wire, o);
    }
    var pieces := if s.buf.Some? then s.buf.value.pieces else [];
    assert pieces == if s.chunk.Some? then q[1..] else q;
    var w := if s.chunk.Some? then AfterTaking(s.wire, s.chunk.value) else s.wire;
    if pieces == [] {
      NothingToFlush(w, o);
    } else {
      var t := State(Some(pieces[0]), Some(Tail(pieces)), w);
      assert Queue(t) == pieces;
      LoopIsFlushed(t, o);
    }
  }

  lemma NothingToFlush(w: Wire, o: Oracle)
    ensures FlushedQueue([], w, o) == (State(None, None, w), Ready)
  {
    assert w.delivered + [] == w.delivered;
  }

  lemma FirstNotTaken(q: seq<Bytes>, w: Wire, o: Oracle)
    requires q != [] && NoneEmpty(q) && ReplyTo(o, w.status, w.polls) != Taken
    ensures FlushedQueue(q, w, o) == (State(Some(q[0]), Some(Tail(q)), w.(polls := w.polls + 1)),
                                      if ReplyTo(o, w.status, w.polls) == Blocked then Pending else Error)
  {
    assert w.delivered + Concat(q[..0]) == w.delivered && q[0..] == q;
  }

  lemma FirstTaken(q: seq<Bytes>, w: Wire, o: Oracle)
    requires q != [] && NoneEmpty(q) && ReplyTo(o, w.status, w.polls) == Taken
    ensures FlushedQueue(q, w, o) == FlushedQueue(q[1..], AfterTaking(w, q[0]), o)
  {
    var k := LeadingTaken(o, w.status, w.polls, |q|);
    assert q[..k][1..] == q[1..][..k - 1] && q[1..][k - 1..] == q[k..];
    assert (w.delivered + q[0]) + Concat(q[..k][1..]) == w.delivered + (q[0] + Concat(q[..k][1..]));
  }

  /** Flush everything, then close the stream. */
  ghost function FinishedBy(s: State, o: Oracle): (r: (State, Poll))
    requires Inv(s)
    ensures Inv(r.0)
  {
    var (t, p) := Flushed(s, o);
    if p != Ready then (t, p) else
    var ok := t.wire.status == Open && o.finishes(t.wire.finishCalls);
    var w := t.wire.(finishCalls := t.wire.finishCalls + 1);
    (t.(wire := if ok then w.(status := Finished) else w), if ok then Ready else Error)
  }

  /** The QUIC stream's own contract (sections 2.2 and 3.1 of RFC 9000): nothing is sent once it is closed. */
  class QuicStream {
    const oracle: Oracle
    var wire: Wire

    constructor (oracle: Oracle)
      ensures this.oracle == oracle && wire == Wire([], 0, 0, Open)
    {
      this.oracle := oracle;
      wire := Wire([], 0, 0, Open);
    }

    /** On `Taken` the whole chunk has been consumed and `rest` is empty. */
    method PollSend(chunk: Bytes) returns (reply: Reply, rest: Bytes)
      modifies this
      ensures reply == ReplyTo(oracle, old(wire).status, old(wire).polls)
      ensures rest == if reply == Taken then [] else chunk
      ensures wire == if reply == Taken then AfterTaking(old(wire), chunk)
                      else old(wire).(polls := old(wire).polls + 1)
    {
      reply := ReplyTo(oracle, wire.status, wire.polls);
      rest := chunk;
      wire := wire.(polls := wire.polls + 1);
      if reply == Taken {
        wire := wire.(delivered := wire.delivered + chunk);
        rest := [];
      }
    }

    method Finish() returns (ok: bool)
      modifies this
      ensures ok == (old(wire).status == Open && oracle.finishes(old(wire).finishCalls))
      ensures wire == old(wire).(finishCalls := old(wire).finishCalls + 1,
                        status := if ok then Finished else old(wire).status)
    {
      ok := wire.status == Open && oracle.finishes(wire.finishCalls);
      wire := wire.(finishCalls := wire.finishCalls + 1);
      if ok {
        wire := wire.(status := Finished);
      }
    }

    method Reset()
      modifies this
      ensures wire == old(wire).(status := if old(wire).status == Open then Aborted else old(wire).status)
    {
      if wire.status == Open {
        wire := wire.(status := Aborted);
      }
    }
  }

  class SendStream {
    const stream: QuicStream
    var chunk: Option<Bytes>
    var buf: Option<WriteBuf>

    ghost function Abstract(): State
      reads this, stream
    {
      State(chunk, buf, stream.wire)
    }

    ghost predicate Valid()
      reads this, stream
    {
      Inv(Abstract())
    }

    constructor (stream: QuicStream)
      ensures this.stream == stream
      ensures Valid() && Abstract() == State(None, None, stream.wire)
    {
      this.stream := stream;
      chunk := None;
      buf := None;
    }

    method PollReady() returns (result: Poll)
      requires Valid()
      modifies this, stream
      ensures Valid()
      ensures (Abstract(), result) == Flushed(old(Abstract()), stream.oracle)
    {
      LoopIsFlushed(Abstract(), stream.oracle);
      while true
        invariant Valid()
        invariant FlushLoop(Abstract(), stream.oracle) == FlushLoop(old(Abstract()), stream.oracle)
        decreases if buf.Some? then |buf.value.pieces| else 0
      {
        if chunk.Some? {
          var reply, rest := stream.PollSend(chunk.value);
          if reply != Taken {
            return if reply == Blocked then Pending else Error;
          }
          assert rest == [];
          chunk := None;
        }
        if buf.Some? {
          var data := buf.value;
          var len := |data.Chunk()|;
          if len == 0 {
            buf := None;
            break;
          }
          chunk := Some(data.pieces[0]);
          buf := Some(Tail(data.pieces));
          continue;
        }
        break;
      }
      result := Ready;
    }

    /** Refuses while a buffer is still present, and looks at nothing else. */
    method SendData(data: WriteBuf) returns (accepted: bool)
      requires Valid()
      modifies this
      ensures Valid()
      ensures accepted == old(buf).None?
      ensures Abstract() == if accepted then old(Abstract()).(buf := Some(data)) else old(Abstract())
    {
      if buf.Some? {
        return false;
      }
      buf := Some(data);
      accepted := true;
    }

    method PollFinish() returns (result: Poll)
      requires Valid()
      modifies this, stream
      ensures Valid()
      ensures (Abstract(), result) == FinishedBy(old(Abstract()), stream.oracle)
    {
      result := PollReady();
      if result != Ready {
        return;
      }
      var ok := stream.Finish();
      result := if ok then Ready else Error;
    }

    method Reset()
      requires Valid()
      modifies stream
      ensures Valid()
      ensures chunk == old(chunk) && buf == old(buf)
      ensures stream.wire == old(stream.wire).(status :=
                if old(stream.wire).status == Open then Aborted else old(stream.wire).status)
    {
      stream.Reset();
    }
  }
}
