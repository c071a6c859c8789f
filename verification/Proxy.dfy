/** Upstream choice in the proxy: a wrapping global counter, rotation, and retry over the upstream's addresses. */
module Proxy {
  /** The number of values of the machine word. */
  type Word = w: nat | w > 0 witness 1

  /** `overflowing_add(1)`, keeping the wrapped value. */
  function Bumped(word: Word, n: nat): (r: nat)
    requires n < word
    ensures r < word
  {
    if n + 1 == word then 0 else n + 1
  }

  /** The address index that a counter value stands for. */
  function Rotation(len: nat): nat -> nat
    requires len > 0
  {
    x => x % len
  }

  /** How many of the numbers below `t` are sent to `i`. */
  ghost function Below(pick: nat -> nat, t: nat, i: nat): nat {
    if t == 0 then 0 else Below(pick, t - 1, i) + if pick(t - 1) == i then 1 else 0
  }

  lemma DivModIs(x: int, m: nat, q: int, r: nat)
    requires r < m && x == q * m + r
    ensures x / m == q && x % m == r
  {
    var d := q - x / m;
    assert d * m == x % m - r;
    assert d >= 1 ==> d * m >= m;
    assert d <= -1 ==> d * m <= -1 * m;
  }

  lemma SuccDivMod(t: nat, len: nat)
    requires len > 0
    ensures t % len + 1 < len ==> (t + 1) % len == t % len + 1 && (t + 1) / len == t / len
    ensures t % len + 1 >= len ==> (t + 1) % len == 0 && (t + 1) / len == t / len + 1
  {
    if t % len + 1 < len {
      DivModIs(t + 1, len, t / len, t % len + 1);
    } else {
      DivModIs(t + 1, len, t / len + 1, 0);
    }
  }

  lemma {:induction false} BelowIs(t: nat, len: nat, i: nat)
    requires i < len
    ensures Below(Rotation(len), t, i) == t / len + if i < t % len then 1 else 0
  {
    if t == 0 {
      DivModIs(0, len, 0, 0);
    } else {
      BelowIs(t - 1, len, i);
      SuccDivMod(t - 1, len);
    }
  }

  /** The counter after `m` more draws. */
  ghost function Drawn(word: Word, n: nat, m: nat): (r: nat)
    requires n < word
    ensures r < word
  {
    if m == 0 then n else Bumped(word, Drawn(word, n, m - 1))
  }

  ghost function Wraps(word: Word, n: nat, m: nat): nat
    requires n < word
  {
    if m == 0 then 0 else Wraps(word, n, m - 1) + if Drawn(word, n, m) == 0 then 1 else 0
  }

  /** How many of the next `m` requests start at address `i`. */
  ghost function FirstPicks(word: Word, pick: nat -> nat, n: nat, m: nat, i: nat): nat
    requires n < word
  {
    if m == 0 then 0
    else FirstPicks(word, pick, n, m - 1, i) + if pick(Drawn(word, n, m)) == i then 1 else 0
  }

  ghost function Times(w: nat, b: nat): nat {
    if w == 0 then 0 else Times(w - 1, b) + b
  }

  lemma {:induction false} TimesDiffers(w: nat, b: nat)
    ensures Times(w, b + 1) == Times(w, b) + w
  {
    if w > 0 {
      TimesDiffers(w - 1, b);
    }
  }

  /** Whole rounds of the counter, plus the part since the last wrap, minus the part before the first draw. */
  lemma {:induction false} FirstPicksIs(word: Word, pick: nat -> nat, n: nat, m: nat, i: nat)
    requires n < word
    ensures FirstPicks(word, pick, n, m, i)
            == Times(Wraps(word, n, m), Below(pick, word, i))
               + Below(pick, Drawn(word, n, m) + 1, i) - Below(pick, n + 1, i)
  {
    if m > 0 {
      FirstPicksIs(word, pick, n, m - 1, i);
      assert Below(pick, 0, i) == 0;
    }
  }

  lemma EarlierHasMore(t: nat, len: nat, i: nat, j: nat)
    requires i < j < len
    ensures Ahead(Rotation(len), t, i, j, if t % len == 0 then 0 else 1)
  {
    BelowIs(t, len, i);
    BelowIs(t, len, j);
  }

  ghost predicate Ahead(pick: nat -> nat, t: nat, i: nat, j: nat, most: nat) {
    0 <= Below(pick, t, i) - Below(pick, t, j) <= most
  }

  lemma PicksStayClose(word: Word, pick: nat -> nat, n: nat, m: nat, i: nat, j: nat, most: nat)
    requires n < word && most <= 1
    requires Ahead(pick, word, i, j, most) && Ahead(pick, n + 1, i, j, 1)
    requires Ahead(pick, Drawn(word, n, m) + 1, i, j, 1)
    ensures -1 <= FirstPicks(word, pick, n, m, i) - FirstPicks(word, pick, n, m, j) <= most * Wraps(word, n, m) + 1
  {
    FirstPicksIs(word, pick, n, m, i);
    FirstPicksIs(word, pick, n, m, j);
    TimesDiffers(Wraps(word, n, m), Below(pick, word, j));
  }

  /**
   Round robin: over any `m` requests to one upstream, the first picks of two addresses differ by at most one more
   than the number of times the counter wrapped. A wrap can only favour the earlier address, and favours none when
   the length divides the word.
   */
  lemma RoundRobinIsBalanced(word: Word, n: nat, m: nat, len: nat, i: nat, j: nat)
    requires n < word && i < j < len
    ensures var d := FirstPicks(word, Rotation(len), n, m, i) - FirstPicks(word, Rotation(len), n, m, j);
            && -1 <= d <= Wraps(word, n, m) + 1
            && (word % len == 0 ==> d <= 1)
  {
    EarlierHasMore(word, len, i, j);
    EarlierHasMore(n + 1, len, i, j);
    EarlierHasMore(Drawn(word, n, m) + 1, len, i, j);
    PicksStayClose(word, Rotation(len), n, m, i, j, if word % len == 0 then 0 else 1);
  }

  /** How many of the numbers `a .. a + n` are sent to `i`. */
  ghost function Hits(pick: nat -> nat, a: nat, n: nat, i: nat): nat {
    if n == 0 then 0 else Hits(pick, a, n - 1, i) + if pick(a + n - 1) == i then 1 else 0
  }

  lemma {:induction false} HitsIs(pick: nat -> nat, a: nat, n: nat, i: nat)
    ensures Hits(pick, a, n, i) == Below(pick, a + n, i) - Below(pick, a, i)
  {
    if n > 0 {
      HitsIs(pick, a, n - 1, i);
    }
  }

  lemma SumDivMod(a: nat, n: nat, len: nat)
    requires len > 0
    ensures var r := a % len + n % len;
            && (r < len ==> (a + n) / len == a / len + n / len && (a + n) % len == r)
            && (r >= len ==> (a + n) / len == a / len + n / len + 1 && (a + n) % len == r - len)
  {
    var q, r := a / len + n / len, a % len + n % len;
    assert a + n == q * len + r;
    if r < len {
      DivModIs(a + n, len, q, r);
    } else {
      assert (q + 1) * len == q * len + len;
      DivModIs(a + n, len, q + 1, r - len);
    }
  }

  /** Any `n` neighbours hit each index floor or ceiling of `n / len` times. */
  lemma HitsAreEven(a: nat, n: nat, len: nat, i: nat)
    requires i < len
    ensures n / len <= Hits(Rotation(len), a, n, i) <= n / len + 1
    ensures n % len == 0 ==> Hits(Rotation(len), a, n, i) == n / len
  {
    HitsIs(Rotation(len), a, n, i);
    BelowIs(a, len, i);
    BelowIs(a + n, len, i);
    SumDivMod(a, n, len);
  }

  /** The attempts of one request go round from the address it drew. */
  ghost predicate Rotates(n: nat, len: nat, tried: seq<nat>) {
    len > 0 && forall k | 0 <= k < |tried| :: tried[k] == (n + k) % len
  }

  lemma {:induction false} TriedAsHits(n: nat, len: nat, tried: seq<nat>, i: nat)
    requires Rotates(n, len, tried)
    ensures multiset(tried)[i] == Hits(Rotation(len), n, |tried|, i)
  {
    if tried != [] {
      var k := |tried| - 1;
      TriedAsHits(n, len, tried[..k], i);
      assert tried == tried[..k] + [tried[k]];
    }
  }

  /** Attempts are spread evenly, and enough of them reach every address. */
  lemma AttemptsCoverUpstream(n: nat, len: nat, tried: seq<nat>, i: nat)
    requires Rotates(n, len, tried) && i < len
    ensures |tried| / len <= multiset(tried)[i] <= |tried| / len + 1
    ensures |tried| >= len ==> i in tried
  {
    TriedAsHits(n, len, tried, i);
    HitsAreEven(n, |tried|, len, i);
    PositiveQuotient(|tried|, len);
  }

  lemma PositiveQuotient(n: nat, len: nat)
    requires len > 0
    ensures n >= len ==> n / len >= 1
  {
    assert n == (n / len) * len + n % len;
  }

  /**
   The retry counter is a machine word too. It exceeds `max_retry` at some point, so that a request that always
   fails is given up, if and only if `max_retry` is not the greatest word.
   */
  lemma GivesUpUnlessGreatest(word: Word, maxRetry: nat)
    requires maxRetry < word
    ensures (exists failures :: Drawn(word, 0, failures) > maxRetry) <==> maxRetry < word - 1
  {
    if maxRetry < word - 1 {
      CountsUp(word, maxRetry + 1);
      assert Drawn(word, 0, maxRetry + 1) > maxRetry;
    }
  }

  lemma {:induction false} CountsUp(word: Word, k: nat)
    requires k < word
    ensures Drawn(word, 0, k) == k
  {
    if k > 0 {
      CountsUp(word, k - 1);
    }
  }

  lemma NextPos(x: nat, len: nat)
    requires len > 0
    ensures (x % len + 1) % len == (x + 1) % len
  {
    SuccDivMod(x, len);
    if x % len + 1 < len {
      DivModIs(x % len + 1, len, 0, x % len + 1);
    } else {
      DivModIs(len, len, 1, 0);
    }
  }

  datatype Outcome = NoUpstream | BodyFailed | Answered(index: nat) | GaveUp

  /** `answers(k, i)`: would attempt number `k`, at address `i`, get a response? */
  ghost predicate SomeAttemptAnswers(n: nat, len: nat, answers: (nat, nat) -> bool, k: nat)
    requires len > 0
  {
    answers(k, (n + k) % len)
  }

  /** The loop of one request that drew `n`; `goal` is an attempt it cannot get past. */
  method Attempts(word: Word, n: nat, len: nat, maxRetry: nat, answers: (nat, nat) -> bool, ghost goal: nat)
    returns (outcome: Outcome, tried: seq<nat>)
    requires len > 0 && maxRetry < word
    requires if maxRetry < word - 1 then goal == maxRetry else SomeAttemptAnswers(n, len, answers, goal)
    ensures tried != [] && Rotates(n, len, tried)
    ensures outcome == if answers(|tried| - 1, tried[|tried| - 1]) then Answered(tried[|tried| - 1]) else GaveUp
    ensures forall k | 0 <= k < |tried| - 1 :: !answers(k, tried[k])
    ensures maxRetry < word - 1 ==> |tried| <= maxRetry + 1
    ensures outcome == GaveUp ==> |tried| == maxRetry + 1
  {
    tried := [];
    var pos := n % len;
    var retry: nat := 0;
    while true
      invariant pos == (n + |tried|) % len && retry < word && retry <= maxRetry
      invariant Rotates(n, len, tried) && forall k | 0 <= k < |tried| :: !answers(k, tried[k])
      invariant |tried| <= goal && (maxRetry < word - 1 ==> retry == |tried|)
      decreases goal - |tried|
    {
      var answered := answers(|tried|, pos);
      tried := tried + [pos];
      if answered {
        return Answered(pos), tried;
      }
      retry := Bumped(word, retry);
      if retry > maxRetry {
        return GaveUp, tried;
      }
      NextPos(n + |tried| - 1, len);
      pos := (pos + 1) % len;
    }
  }

  /** The global counter `N`, shared by all upstreams. */
  class Balancer {
    const word: Word
    var n: nat

    ghost predicate Valid()
      reads this
    {
      n < word
    }

    constructor (word: Word)
      ensures Valid() && this.word == word && n == 0
    {
      this.word := word;
      n := 0;
    }

    /** `tried` lists the address of every attempt, in order; the last one is the answered one, if any. */
    method Forward(len: nat, maxRetry: nat, bodyOk: bool, answers: (nat, nat) -> bool)
      returns (outcome: Outcome, tried: seq<nat>)
      requires Valid() && maxRetry < word
      requires len > 0 && bodyOk && maxRetry == word - 1 ==>
                 exists k :: SomeAttemptAnswers(Bumped(word, n), len, answers, k)
      modifies this
      ensures Valid()
      ensures outcome == NoUpstream <==> len == 0
      ensures outcome == BodyFailed <==> len > 0 && !bodyOk
      ensures outcome in {NoUpstream, BodyFailed} ==> n == old(n) && tried == []
      ensures outcome !in {NoUpstream, BodyFailed} ==> n == Bumped(word, old(n))
      ensures outcome !in {NoUpstream, BodyFailed} ==>
                && tried != [] && Rotates(n, len, tried)
                && (forall k | 0 <= k < |tried| - 1 :: !answers(k, tried[k]))
                && outcome == if answers(|tried| - 1, tried[|tried| - 1]) then Answered(tried[|tried| - 1]) else GaveUp
      ensures maxRetry < word - 1 ==> |tried| <= maxRetry + 1
      ensures outcome == GaveUp ==> |tried| == maxRetry + 1
    {
      if len == 0 {
        return NoUpstream, [];
      }
      if !bodyOk {
        return BodyFailed, [];
      }
      n := Bumped(word, n);
      ghost var goal: nat := maxRetry;
      if maxRetry == word - 1 {
        goal :| SomeAttemptAnswers(n, len, answers, goal);
      }
      outcome, tried := Attempts(word, n, len, maxRetry, answers, goal);
    }
  }
}
