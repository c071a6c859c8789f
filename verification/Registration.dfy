/**
 Pre-registration of a group of UDP sockets with the udpgrm daemon: bounded exponential backoff around setsockopt,
 a polling loop per socket, and the advance of the working generation at the end. Times are in milliseconds.
 */
module Registration {
  import opened Basics

  /** What one setsockopt does. */
  datatype SetReply = Applied | Again | Refused

  /** What one getsockopt of a socket's registration reports: an index or none yet, or an error. */
  datatype GetReply = Index(idx: nat) | OsError

  const NO_INDEX: nat := 0xffff_ffff

  /** What happened, in order. */
  datatype Event =
    | GenSet(socket: nat, gen: int)
    | Seen(socket: nat, idx: nat)
    | Slept(ms: nat)
    | Advanced(socket: nat, gen: int)

  datatype Outcome = Finished | NoSockets | GetFailed | SetFailed | NotRegistered | Crashed

  function Pow2(i: nat): (p: nat)
    ensures p > 0
  {
    if i == 0 then 1 else 2 * Pow2(i - 1)
  }

  function TotalSleep(log: seq<Event>): nat {
    if log == [] then 0 else
    TotalSleep(log[..|log| - 1]) + if log[|log| - 1].Slept? then log[|log| - 1].ms else 0
  }

  lemma {:induction false} TotalSleepAppend(log: seq<Event>, more: seq<Event>)
    ensures TotalSleep(log + more) == TotalSleep(log) + TotalSleep(more)
    decreases |more|
  {
    if more == [] {
      assert log + more == log;
    } else {
      var n := |more| - 1;
      assert (log + more)[..|log + more| - 1] == log + more[..n];
      TotalSleepAppend(log, more[..n]);
    }
  }

  lemma SleepAppend(log: seq<Event>, e: Event)
    ensures TotalSleep(log + [e]) == TotalSleep(log) + if e.Slept? then e.ms else 0
  {
    assert (log + [e])[..|log|] == log;
  }

  /** The daemon's answers: attempt `i` of a setsockopt, poll `i` of a getsockopt. */
  datatype Daemon = Daemon(
    workingGen: Option<int>,
    setGen: (nat, nat) -> SetReply,
    getGen: (nat, nat) -> GetReply,
    advance: nat -> SetReply)

  /** The first attempt that is not answered Again, if it comes within the eight tried. */
  function FirstSettled(reply: nat -> SetReply, i: nat): (k: nat)
    requires i <= 8
    ensures i <= k <= 8
    ensures forall j | i <= j < k :: reply(j) == Again
    ensures k < 8 ==> reply(k) != Again
    decreases 8 - i
  {
    if i == 8 || reply(i) != Again then i else FirstSettled(reply, i + 1)
  }

  /**
   The retry loop around one setsockopt. It raises exactly if the first answer other than EAGAIN is a refusal. Eight
   times EAGAIN end it quietly, with the option not set.
   */
  method RetryingSetsockopt(reply: nat -> SetReply) returns (raised: bool, applied: bool, log: seq<Event>)
    ensures var k := FirstSettled(reply, 0);
            && (raised <==> k < 8 && reply(k) == Refused)
            && (applied <==> k < 8 && reply(k) == Applied)
            && TotalSleep(log) == 10 * (Pow2(k) - 1)
    ensures TotalSleep(log) <= 10 * (Pow2(8) - 1)
    ensures forall e | e in log :: e.Slept?
  {
    log := [];
    raised, applied := false, false;
    assert Pow2(0) == 1;
    for i := 0 to 8
      invariant FirstSettled(reply, 0) == FirstSettled(reply, i)
      invariant TotalSleep(log) == 10 * (Pow2(i) - 1) && forall e | e in log :: e.Slept?
    {
      PowGrows(i, 8);
      match reply(i)
      case Applied =>
        return false, true, log;
      case Again =>
        SleepAppend(log, Slept(10 * Pow2(i)));
        log := log + [Slept(10 * Pow2(i))];
      case Refused =>
        return true, false, log;
    }
  }

  lemma {:induction false} PowGrows(i: nat, j: nat)
    requires i <= j
    ensures Pow2(i) <= Pow2(j)
    decreases j
  {
    if i < j {
      PowGrows(i, j - 1);
    }
  }

  /** The first poll that reports an index or fails, if it is among the first eight. */
  function FirstAnswered(reply: nat -> GetReply, i: nat): (k: nat)
    requires i <= 8
    ensures i <= k <= 8
    ensures forall j | i <= j < k :: reply(j) == Index(NO_INDEX)
    ensures k < 8 ==> reply(k) != Index(NO_INDEX)
    decreases 8 - i
  {
    if i == 8 || reply(i) != Index(NO_INDEX) then i else FirstAnswered(reply, i + 1)
  }

  datatype Polled = Registered | NeverRegistered | Raised

  /** The daemon reports this index in poll `i`, and none before. */
  ghost predicate Reports(reply: nat -> GetReply, i: nat, idx: nat) {
    idx != NO_INDEX && reply(i) == Index(idx) && forall j: nat | j < i :: reply(j) == Index(NO_INDEX)
  }

  /** The daemon reports an index within eight polls. */
  ghost predicate Registers(reply: nat -> GetReply) {
    exists i: nat, idx: nat :: i < 8 && Reports(reply, i, idx)
  }

  /** A poll fails before any index was reported. */
  ghost predicate PollFails(reply: nat -> GetReply) {
    exists i: nat :: i < 8 && reply(i) == OsError && forall j: nat | j < i :: reply(j) == Index(NO_INDEX)
  }

  /** Eight polls without an index. */
  ghost predicate StaysUnknown(reply: nat -> GetReply) {
    forall i: nat | i < 8 :: reply(i) == Index(NO_INDEX)
  }

  /** The first poll with another answer than none decides, if there is one among the first eight. */
  lemma PollDecides(reply: nat -> GetReply, i: nat)
    requires i < 8 && forall j: nat | j < i :: reply(j) == Index(NO_INDEX)
    ensures reply(i) == OsError ==> PollFails(reply) && !Registers(reply) && !StaysUnknown(reply)
    ensures reply(i).Index? && reply(i).idx != NO_INDEX ==>
              Reports(reply, i, reply(i).idx) && Registers(reply) && !PollFails(reply) && !StaysUnknown(reply)
    ensures reply(i) == Index(NO_INDEX) && i == 7 ==> StaysUnknown(reply) && !Registers(reply) && !PollFails(reply)
  {
    assert reply(i).Index? && reply(i).idx != NO_INDEX ==> Reports(reply, i, reply(i).idx);
  }

  /**
   The polling loop of one socket. It may go round ten times, yet is always left inside the first eight: with the
   first index reported, with an error, or by giving up after eight polls without an index.
   */
  method PollRegistration(socket: nat, reply: nat -> GetReply) returns (result: Polled, log: seq<Event>)
    ensures result == Registered <==> Registers(reply)
    ensures result == Raised <==> PollFails(reply)
    ensures result == NeverRegistered <==> StaysUnknown(reply)
    ensures forall e | e in log && e.Seen? ::
              e.socket == socket && exists i: nat :: i < 8 && Reports(reply, i, e.idx)
    ensures result == Registered <==> exists b :: 0 <= b < |log| && log[b].Seen?
    ensures forall e | e in log :: e.Slept? || e.Seen?
    ensures var k := FirstAnswered(reply, 0);
            TotalSleep(log) == 100 * (Pow2(if k < 8 then k else 7) - 1)
    ensures TotalSleep(log) <= 100 * (Pow2(7) - 1)
  {
    log := [];
    result := NeverRegistered;
    assert Pow2(0) == 1;
    var i: nat := 0;
    while i < 10
      invariant i <= 7 && forall j: nat | j < i :: reply(j) == Index(NO_INDEX)
      invariant FirstAnswered(reply, 0) == FirstAnswered(reply, i)
      invariant TotalSleep(log) == 100 * (Pow2(i) - 1) && forall e | e in log :: e.Slept?
    {
      PowGrows(i, 7);
      PollDecides(reply, i);
      match reply(i)
      case OsError =>
        return Raised, log;
      case Index(idx) =>
        if idx != NO_INDEX {
          SleepAppend(log, Seen(socket, idx));
          assert (log + [Seen(socket, idx)])[|log|].Seen?;
          return Registered, log + [Seen(socket, idx)];
        }
        if i >= 7 {
          return NeverRegistered, log;
        }
        SleepAppend(log, Slept(100 * Pow2(i)));
        log := log + [Slept(100 * Pow2(i))];
        i := i + 1;
    }
  }

  // ---- The whole registration ----------------------------------------------------------------------------------

  predicate SetRaises(reply: nat -> SetReply) {
    var k := FirstSettled(reply, 0);
    k < 8 && reply(k) == Refused
  }

  predicate SetApplies(reply: nat -> SetReply) {
    var k := FirstSettled(reply, 0);
    k < 8 && reply(k) == Applied
  }

  /** Every attempt is answered EAGAIN. */
  ghost predicate Exhausted(reply: nat -> SetReply) {
    forall i: nat | i < 8 :: reply(i) == Again
  }

  function SetOf(d: Daemon, socket: nat): nat -> SetReply {
    (i: nat) => d.setGen(socket, i)
  }

  function GetOf(d: Daemon, socket: nat): nat -> GetReply {
    (i: nat) => d.getGen(socket, i)
  }

  /** Is this index the first that the daemon reported for this socket, within eight polls? */
  ghost predicate Genuine(d: Daemon, e: Event) {
    e.Seen? && exists i: nat :: i < 8 && Reports(GetOf(d, e.socket), i, e.idx)
  }

  /** Has the daemon reported an index for this socket, by the log? */
  ghost predicate HasIndex(d: Daemon, log: seq<Event>, socket: nat) {
    exists b :: 0 <= b < |log| && log[b].Seen? && log[b].socket == socket && Genuine(d, log[b])
  }

  const SET_LIMIT: nat := 10 * (Pow2(8) - 1)

  const POLL_LIMIT: nat := 100 * (Pow2(7) - 1)

  /** The setsockopt of this socket is reached and applied. */
  ghost predicate Stamped(d: Daemon, count: nat, socket: nat) {
    && socket < count && SetApplies(SetOf(d, socket))
    && forall s: nat | s < socket :: !SetRaises(SetOf(d, s))
  }

  ghost predicate LogsStamps(log: seq<Event>, d: Daemon, count: nat, gen: int) {
    forall s: nat :: GenSet(s, gen) in log <==> Stamped(d, count, s)
  }

  /** Every generation is set before the first index is seen. */
  ghost predicate StampsFirst(log: seq<Event>) {
    forall a, b | 0 <= a < |log| && 0 <= b < |log| && log[a].GenSet? && log[b].Seen? :: a < b
  }

  lemma NothingSeenYet(log: seq<Event>)
    requires forall e | e in log :: !e.Seen?
    ensures StampsFirst(log)
  {
    assert forall b | 0 <= b < |log| :: log[b] in log;
  }

  lemma StampsAppend(log: seq<Event>, more: seq<Event>, d: Daemon, count: nat, gen: int)
    requires StampsFirst(log) && LogsStamps(log, d, count, gen) && forall e | e in more :: !e.GenSet?
    ensures StampsFirst(log + more) && LogsStamps(log + more, d, count, gen)
  {
    assert forall b | 0 <= b < |more| :: more[b] in more;
  }

  method SetGeneration(d: Daemon, socket: nat, gen: int) returns (raised: bool, log: seq<Event>)
    ensures raised <==> SetRaises(SetOf(d, socket))
    ensures GenSet(socket, gen) in log <==> SetApplies(SetOf(d, socket))
    ensures forall e | e in log :: e.Slept? || e == GenSet(socket, gen)
    ensures TotalSleep(log) <= SET_LIMIT
  {
    var applied;
    raised, applied, log := RetryingSetsockopt(SetOf(d, socket));
    if applied {
      SleepAppend(log, GenSet(socket, gen));
      log := log + [GenSet(socket, gen)];
    }
  }

  method SetGenerations(d: Daemon, count: nat, gen: int) returns (raised: bool, log: seq<Event>)
    ensures raised <==> exists s: nat :: s < count && SetRaises(SetOf(d, s))
    ensures LogsStamps(log, d, count, gen) && StampsFirst(log)
    ensures forall e | e in log :: e.Slept? || (e.GenSet? && e.gen == gen)
    ensures TotalSleep(log) <= count * SET_LIMIT
  {
    log := [];
    for socket := 0 to count
      invariant forall s: nat | s < socket :: !SetRaises(SetOf(d, s))
      invariant forall s: nat :: GenSet(s, gen) in log <==> s < socket && SetApplies(SetOf(d, s))
      invariant forall e | e in log :: e.Slept? || (e.GenSet? && e.gen == gen)
      invariant TotalSleep(log) <= socket * SET_LIMIT
    {
      var failed, more := SetGeneration(d, socket, gen);
      TotalSleepAppend(log, more);
      OneMoreTime(socket, count, SET_LIMIT);
      log := log + more;
      NothingSeenYet(log);
      if failed {
        return true, log;
      }
    }
    NothingSeenYet(log);
    raised := false;
  }

  lemma OneMoreTime(n: nat, count: nat, limit: nat)
    requires n < count
    ensures (n + 1) * limit == n * limit + limit
    ensures (n + 1) * limit <= count * limit
  {
    assert count * limit == (n + 1) * limit + (count - n - 1) * limit;
  }

  /** The polling of this socket is reached and fails with an error. */
  ghost predicate Raises(d: Daemon, socket: nat) {
    PollFails(GetOf(d, socket)) && forall s: nat | s < socket :: Registers(GetOf(d, s))
  }

  method AwaitIndices(d: Daemon, count: nat) returns (result: Polled, log: seq<Event>)
    ensures result == Registered <==> forall s: nat | s < count :: Registers(GetOf(d, s))
    ensures result == Raised <==> exists s: nat :: s < count && Raises(d, s)
    ensures result == Registered ==> forall s: nat | s < count :: HasIndex(d, log, s)
    ensures forall e | e in log :: e.Slept? || Genuine(d, e)
    ensures TotalSleep(log) <= count * POLL_LIMIT
  {
    log := [];
    result := Registered;
    for socket := 0 to count
      invariant forall s: nat | s < socket ::
                  Registers(GetOf(d, s)) && !PollFails(GetOf(d, s)) && HasIndex(d, log, s)
      invariant forall e | e in log :: e.Slept? || Genuine(d, e)
      invariant TotalSleep(log) <= socket * POLL_LIMIT && result == Registered
    {
      var polled, more := PollRegistration(socket, GetOf(d, socket));
      assert polled == Raised ==> Raises(d, socket);
      TotalSleepAppend(log, more);
      OneMoreTime(socket, count, POLL_LIMIT);
      HasIndexAppends(d, log, more);
      log := log + more;
      if polled != Registered {
        return polled, log;
      }
    }
  }

  lemma HasIndexAppends(d: Daemon, log: seq<Event>, more: seq<Event>)
    ensures forall s | HasIndex(d, log, s) :: HasIndex(d, log + more, s)
    ensures forall s | HasIndex(d, more, s) :: HasIndex(d, log + more, s)
  {
    forall s | HasIndex(d, log, s) ensures HasIndex(d, log + more, s) {
      var b :| 0 <= b < |log| && log[b].Seen? && log[b].socket == s && Genuine(d, log[b]);
      assert (log + more)[b] == log[b];
    }
    forall s | HasIndex(d, more, s) ensures HasIndex(d, log + more, s) {
      var b :| 0 <= b < |more| && more[b].Seen? && more[b].socket == s && Genuine(d, more[b]);
      assert (log + more)[|log| + b] == more[b];
    }
  }

  /** Everything the daemon has to grant for the registration to finish. */
  ghost predicate AllGranted(d: Daemon, count: nat, advance: bool) {
    && count > 0 && d.workingGen.Some?
    && (forall s: nat | s < count :: !SetRaises(SetOf(d, s)) && Registers(GetOf(d, s)))
    && (advance ==> !SetRaises(d.advance))
  }

  /** The first thing that goes wrong, in the order of the calls. */
  ghost function Verdict(d: Daemon, count: nat, advance: bool): Outcome {
    if count == 0 then NoSockets
    else if d.workingGen.None? then GetFailed
    else if exists s: nat :: s < count && SetRaises(SetOf(d, s)) then SetFailed
    else if exists s: nat :: s < count && Raises(d, s) then Crashed
    else if exists s: nat :: s < count && !Registers(GetOf(d, s)) then NotRegistered
    else if advance && SetRaises(d.advance) then SetFailed
    else Finished
  }

  ghost predicate AllSeen(d: Daemon, log: seq<Event>, count: nat) {
    forall s: nat | s < count :: HasIndex(d, log, s)
  }

  ghost predicate NeverAdvances(log: seq<Event>) {
    forall e | e in log :: !e.Advanced?
  }

  /** The working generation moves at the very end, to `gen`, through the last socket, with every socket seen. */
  ghost predicate AdvancesLast(d: Daemon, log: seq<Event>, count: nat, gen: int) {
    && log != [] && count > 0 && log[|log| - 1] == Advanced(count - 1, gen)
    && NeverAdvances(log[..|log| - 1]) && AllSeen(d, log[..|log| - 1], count)
  }

  /** The generation of every socket is set, and then each is polled until the daemon knows it. */
  method SetAndAwait(d: Daemon, count: nat, gen: int) returns (outcome: Outcome, log: seq<Event>)
    requires count > 0 && d.workingGen.Some?
    ensures outcome == Verdict(d, count, false)
    ensures forall e | e in log && e.Seen? :: Genuine(d, e)
    ensures outcome == Finished ==> AllSeen(d, log, count)
    ensures NeverAdvances(log) && LogsStamps(log, d, count, gen) && StampsFirst(log)
    ensures TotalSleep(log) <= count * SET_LIMIT + count * POLL_LIMIT
  {
    var raised;
    raised, log := SetGenerations(d, count, gen);
    if raised {
      return SetFailed, log;
    }
    var polled, polls := AwaitIndices(d, count);
    TotalSleepAppend(log, polls);
    HasIndexAppends(d, log, polls);
    StampsAppend(log, polls, d, count, gen);
    log := log + polls;
    outcome := match polled case Registered => Finished case Raised => Crashed case NeverRegistered => NotRegistered;
  }

  method Advance(d: Daemon, count: nat, gen: int, done: seq<Event>) returns (raised: bool, log: seq<Event>)
    requires count > 0 && AllSeen(d, done, count) && NeverAdvances(done)
    ensures raised <==> SetRaises(d.advance)
    ensures done <= log && forall e | e in log[|done|..] :: e.Slept? || e.Advanced?
    ensures !raised ==> (NeverAdvances(log) <==> Exhausted(d.advance))
    ensures AllSeen(d, log, count)
    ensures if SetApplies(d.advance) then AdvancesLast(d, log, count, gen) else NeverAdvances(log)
    ensures TotalSleep(log) <= TotalSleep(done) + SET_LIMIT
  {
    var applied, waits;
    raised, applied, waits := RetryingSetsockopt(d.advance);
    TotalSleepAppend(done, waits);
    HasIndexAppends(d, done, waits);
    log := done + waits;
    if applied {
      SleepAppend(log, Advanced(count - 1, gen));
      HasIndexAppends(d, log, [Advanced(count - 1, gen)]);
      ghost var before := log;
      log := log + [Advanced(count - 1, gen)];
      assert log[..|log| - 1] == before;
    }
  }

  /**
   The registration part of `main`. It finishes if and only if the daemon grants every step. It sets generations
   first, and advances the working generation only after every socket has reported a valid index. A requested advance
   is missing from a finished registration exactly if the daemon answered EAGAIN eight times.
   */
  method Register(d: Daemon, count: nat, advance: bool) returns (outcome: Outcome, log: seq<Event>)
    ensures outcome == Verdict(d, count, advance)
    ensures outcome == Finished <==> AllGranted(d, count, advance)
    ensures forall e | e in log && e.Seen? :: Genuine(d, e)
    ensures outcome == Finished ==> AllSeen(d, log, count)
    ensures if outcome == Finished && advance && SetApplies(d.advance)
            then AdvancesLast(d, log, count, d.workingGen.value + 1) else NeverAdvances(log)
    ensures outcome == Finished && advance ==> (NeverAdvances(log) <==> Exhausted(d.advance))
    ensures if d.workingGen.None? then log == [] else
              LogsStamps(log, d, count, d.workingGen.value + 1)
    ensures StampsFirst(log)
    ensures TotalSleep(log) <= count * SET_LIMIT + count * POLL_LIMIT + SET_LIMIT
  {
    log := [];
    if count == 0 {
      return NoSockets, log;
    }
    if d.workingGen.None? {
      return GetFailed, log;
    }
    var gen := d.workingGen.value + 1;
    outcome, log := SetAndAwait(d, count, gen);
    if outcome != Finished {
      return;
    }
    if advance {
      ghost var done := log;
      var raised;
      raised, log := Advance(d, count, gen, log);
      assert log == done + log[|done|..];
      StampsAppend(done, log[|done|..], d, count, gen);
      if raised {
        return SetFailed, log;
      }
    }
  }

  /** A daemon that is out of room for the advance, and for nothing else. */
  const BUSY := Daemon(Some(0), (socket, i) => Applied, (socket, i) => Index(1), i => Again)

  /** So a registration can finish without the advance, whether or not it was asked for. */
  method MissesTheAdvance(count: nat, advance: bool) returns (outcome: Outcome, log: seq<Event>)
    requires count > 0
    ensures outcome == Finished && AllSeen(BUSY, log, count) && NeverAdvances(log)
  {
    assert forall s: nat :: Reports(GetOf(BUSY, s), 0, 1);
    outcome, log := Register(BUSY, count, advance);
  }
}
