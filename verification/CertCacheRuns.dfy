/** What the certificate cache promises over whole runs of lookups and sweeps, under any clock. */
module CertCacheRuns {
  import opened Basics
  import opened CertCache

  datatype Op = Get(host: Host) | Sweep(days: int, clock: nat -> int)

  function Apply(env: Env, s: Cache, op: Op): Cache {
    match op
    case Get(host) => Got(env, s, host).0
    case Sweep(days, clock) => Swept(s, clock, days)
  }

  /** The cache after some operations, starting empty. */
  ghost function Run(env: Env, ops: seq<Op>): Cache {
    if ops == [] then Cache(map[], []) else Apply(env, Run(env, ops[..|ops| - 1]), ops[|ops| - 1])
  }

  // ---- The cache refines its loader ----------------------------------------------------------------------------

  /** The host under which looking up `h` caches what it finds, if it caches at all. */
  ghost predicate Caches(env: Env, h: Host, name: Host, c: Cert) {
    && env.load(h) == Found(c) && c.form == Parses
    && exists k: nat :: IsFirstShortest(c.names, k) && c.names[k] == name
  }

  lemma CachesIs(env: Env, h: Host, name: Host, c: Cert)
    ensures Caches(env, h, name, c) <==> Lookup(env, h) == Have(c) && c.names != [] && Shortest(c.names) == name
  {
    if c.names != [] {
      assert IsFirstShortest(c.names, ShortestAt(c.names));
      assert forall k: nat | IsFirstShortest(c.names, k) :: k == ShortestAt(c.names);
    }
  }

  /** Keeping `c` under `name` can never be told from asking the loader again. */
  ghost predicate Harmless(env: Env, name: Host, c: Cert) {
    && Uncached(env, name) == Have(c)
    && forall host | Lookup(env, host) == Nothing && env.sub(host) == Some(name) :: Lookup(env, name) == Have(c)
  }

  /** Without a cache, and with an empty one, `get` answers the same. */
  lemma UncachedIs(env: Env, host: Host)
    ensures Uncached(env, host) == Got(env, Cache(map[], []), host).1
  {
  }

  ghost predicate Stable(env: Env) {
    forall h, name, c | Caches(env, h, name, c) :: Harmless(env, name, c)
  }

  ghost predicate Transparent(env: Env) {
    forall ops, host :: Got(env, Run(env, ops), host).1 == Uncached(env, host)
  }

  ghost predicate AllHarmless(env: Env, s: Cache) {
    forall name | name in s.hostCert :: Harmless(env, name, s.hostCert[name])
  }

  lemma FetchKeepsHarmless(env: Env, s: Cache, h: Host)
    requires Stable(env) && AllHarmless(env, s)
    ensures AllHarmless(env, Fetched(env, s, h).0)
  {
    var a := Lookup(env, h);
    if h !in s.hostCert && a.Have? && a.cert.names != [] {
      CachesIs(env, h, Shortest(a.cert.names), a.cert);
    }
  }

  lemma {:induction false} RunIsHarmless(env: Env, ops: seq<Op>)
    requires Stable(env)
    ensures AllHarmless(env, Run(env, ops))
  {
    if ops != [] {
      var n := |ops| - 1;
      RunIsHarmless(env, ops[..n]);
      var s := Run(env, ops[..n]);
      match ops[n]
      case Get(host) =>
        FetchKeepsHarmless(env, s, host);
        if env.sub(host).Some? {
          FetchKeepsHarmless(env, Fetched(env, s, host).0, env.sub(host).value);
        }
      case Sweep(_, _) =>
    }
  }

  lemma HarmlessGet(env: Env, s: Cache, host: Host)
    requires AllHarmless(env, s)
    ensures Got(env, s, host).1 == Uncached(env, host)
  {
    if host in s.hostCert {
      assert Harmless(env, host, s.hostCert[host]);
    } else if Lookup(env, host) == Nothing && env.sub(host).Some? && env.sub(host).value in s.hostCert {
      var name := env.sub(host).value;
      assert Harmless(env, name, s.hostCert[name]);
    }
  }

  /** A harmful entry is one lookup away, and the next lookup shows it. */
  lemma HarmShows(env: Env, h: Host, name: Host, c: Cert) returns (host: Host)
    requires Caches(env, h, name, c) && !Harmless(env, name, c)
    ensures Got(env, Run(env, [Get(h)]), host).1 != Uncached(env, host)
  {
    var s := Run(env, [Get(h)]);
    CachesIs(env, h, name, c);
    assert [Get(h)][..0] == [];
    assert Run(env, []) == Cache(map[], []);
    assert s.hostCert == map[name := c];
    if Uncached(env, name) != Have(c) {
      host := name;
    } else {
      host :| Lookup(env, host) == Nothing && env.sub(host) == Some(name) && Lookup(env, name) != Have(c);
    }
  }

  /**
   The cache refines the loader: `get` returns, after any operations and for every host, what asking the loader
   directly returns, if and only if no lookup can cache a certificate under a name that answers otherwise.
   */
  lemma TransparentIffStable(env: Env)
    ensures Transparent(env) <==> Stable(env)
  {
    if Stable(env) {
      forall ops, host ensures Got(env, Run(env, ops), host).1 == Uncached(env, host) {
        RunIsHarmless(env, ops);
        HarmlessGet(env, Run(env, ops), host);
      }
    } else {
      var h, name, c :| Caches(env, h, name, c) && !Harmless(env, name, c);
      var host := HarmShows(env, h, name, c);
    }
  }

  /** The certificate for "ab" names "b" alone, and "b" has one of its own. */
  const MISNAMED := Env(
    h => if h == "ab" then Found(Cert(0, Parses, ["b"], 0)) else
         if h == "b" then Found(Cert(1, Parses, ["b"], 0)) else Missing,
    h => None)

  /** After a lookup of "ab" the cache answers for "b" with a certificate that the loader would not have given. */
  lemma CacheMayDisagree()
    ensures Got(MISNAMED, Run(MISNAMED, [Get("ab")]), "b").1 == Have(Cert(0, Parses, ["b"], 0))
    ensures Uncached(MISNAMED, "b") == Have(Cert(1, Parses, ["b"], 0))
    ensures !Transparent(MISNAMED)
  {
    var c := Cert(0, Parses, ["b"], 0);
    assert [Get("ab")][..0] == [];
    assert Run(MISNAMED, []) == Cache(map[], []);
    assert Lookup(MISNAMED, "ab") == Have(c) && Shortest(c.names) == "b";
    assert Run(MISNAMED, [Get("ab")]).hostCert == map["b" := c];
    assert Got(MISNAMED, Run(MISNAMED, [Get("ab")]), "b").1 != Uncached(MISNAMED, "b");
  }

  /** It is enough that a certificate's shortest name loads that certificate. */
  lemma NameStableSuffices(env: Env)
    requires forall h, name, c | Caches(env, h, name, c) :: Lookup(env, name) == Have(c)
    ensures Transparent(env)
  {
    TransparentIffStable(env);
  }

  // ---- The index -----------------------------------------------------------------------------------------------

  /** Every cached certificate is listed in the bucket of its own key. */
  ghost predicate Indexed(s: Cache) {
    Sorted(s.expire) && forall h | h in s.hostCert :: Listed(s.expire, KeyOf(s.hostCert[h]), h)
  }

  lemma StoreKeepsIndexed(s: Cache, c: Cert)
    requires Indexed(s)
    ensures Indexed(Stored(s, c))
  {
    if c.names != [] {
      var host := Shortest(c.names);
      PushedKeepsOrder(s.expire, KeyOf(c), host);
      forall h | h in Stored(s, c).hostCert
        ensures Listed(Stored(s, c).expire, KeyOf(Stored(s, c).hostCert[h]), h)
      {
        PushedLists(s.expire, KeyOf(c), host, KeyOf(Stored(s, c).hostCert[h]), h);
      }
    }
  }

  lemma SweepKeepsIndexed(s: Cache, clock: nat -> int, days: int)
    requires Indexed(s)
    ensures Indexed(Swept(s, clock, days))
  {
    var n, t := SweepLength(s.expire, clock, days, 0), Swept(s, clock, days);
    assert Sorted(t.expire);
    forall h | h in t.hostCert ensures Listed(t.expire, KeyOf(t.hostCert[h]), h) {
      var i :| 0 <= i < |s.expire| && s.expire[i].key == KeyOf(s.hostCert[h]) && h in s.expire[i].hosts;
      HostsOfPrefix(s.expire, n, h);
      assert i >= n && t.hostCert[h] == s.hostCert[h];
      assert t.expire[i - n] == s.expire[i];
    }
  }

  lemma {:induction false} RunIsIndexed(env: Env, ops: seq<Op>)
    ensures Indexed(Run(env, ops))
  {
    if ops != [] {
      var n := |ops| - 1;
      RunIsIndexed(env, ops[..n]);
      var s := Run(env, ops[..n]);
      match ops[n]
      case Get(host) =>
        FetchKeepsIndexed(env, s, host);
        if env.sub(host).Some? {
          FetchKeepsIndexed(env, Fetched(env, s, host).0, env.sub(host).value);
        }
      case Sweep(days, clock) =>
        SweepKeepsIndexed(s, clock, days);
    }
  }

  lemma FetchKeepsIndexed(env: Env, s: Cache, h: Host)
    requires Indexed(s)
    ensures Indexed(Fetched(env, s, h).0)
  {
    if h !in s.hostCert && Lookup(env, h).Have? {
      StoreKeepsIndexed(s, Lookup(env, h).cert);
    }
  }

  // ---- The sweep -----------------------------------------------------------------------------------------------

  ghost predicate RunsForward(clock: nat -> int) {
    forall i: nat, j: nat | i <= j :: clock(i) <= clock(j)
  }

  /**
   With a clock that does not run backwards the sweep takes every bucket below its first cutoff, and none at or above
   its last one, the one it stopped at.
   */
  lemma SweepTakesDueBuckets(expire: seq<Bucket>, clock: nat -> int, days: int, i: nat)
    requires Sorted(expire) && RunsForward(clock) && i < |expire|
    ensures var n := SweepLength(expire, clock, days, 0);
            && (expire[i].key < Cutoff(clock, days, 0) ==> i < n)
            && (expire[i].key >= Cutoff(clock, days, n) ==> i >= n)
  {
    var n := SweepLength(expire, clock, days, 0);
    assert clock(0) <= clock(n);
    if i < n {
      assert clock(i) <= clock(n);
    } else {
      assert expire[n].key <= expire[i].key;
    }
  }

  /** Nothing near expiry survives: with a positive first cutoff, what expires before it is gone. */
  lemma NothingNearExpirySurvives(env: Env, ops: seq<Op>, clock: nat -> int, days: int, h: Host)
    requires RunsForward(clock) && Cutoff(clock, days, 0) > 0
    requires h in Swept(Run(env, ops), clock, days).hostCert
    ensures Swept(Run(env, ops), clock, days).hostCert[h].notAfter >= Cutoff(clock, days, 0)
  {
    RunIsIndexed(env, ops);
    var s := Run(env, ops);
    var i :| 0 <= i < |s.expire| && s.expire[i].key == KeyOf(s.hostCert[h]) && h in s.expire[i].hosts;
    SweepTakesDueBuckets(s.expire, clock, days, i);
    HostsOfPrefix(s.expire, SweepLength(s.expire, clock, days, 0), h);
  }

  /** With a still clock, a cached host survives exactly if no bucket that lists it is below the cutoff. */
  lemma SurvivesIff(s: Cache, now: int, days: int, h: Host)
    requires Sorted(s.expire) && h in s.hostCert
    ensures h in Swept(s, _ => now, days).hostCert <==>
            forall i | 0 <= i < |s.expire| && h in s.expire[i].hosts :: s.expire[i].key >= now + days * DAY
  {
    var clock := _ => now;
    var n := SweepLength(s.expire, clock, days, 0);
    forall i | 0 <= i < |s.expire| ensures i < n <==> s.expire[i].key < now + days * DAY {
      SweepTakesDueBuckets(s.expire, clock, days, i);
    }
    HostsOfPrefix(s.expire, n, h);
  }

  /** Is this host listed in a bucket below the cutoff? */
  ghost predicate ListedBelow(expire: seq<Bucket>, cutoff: int, h: Host) {
    exists key :: key < cutoff && Listed(expire, key, h)
  }

  lemma DueIsListedBelow(expire: seq<Bucket>, cutoff: int, h: Host)
    ensures ListedBelow(expire, cutoff, h) <==>
            exists i :: 0 <= i < |expire| && h in expire[i].hosts && expire[i].key < cutoff
  {
    forall i | 0 <= i < |expire| && h in expire[i].hosts ensures Listed(expire, expire[i].key, h) {
    }
  }

  lemma {:induction false} PushedBelow(expire: seq<Bucket>, key: int, h: Host, cutoff: int)
    ensures ListedBelow(Pushed(expire, key, h), cutoff, h) <==> ListedBelow(expire, cutoff, h) || key < cutoff
  {
    forall k ensures Listed(Pushed(expire, key, h), k, h) <==> Listed(expire, k, h) || k == key {
      PushedLists(expire, key, h, k, h);
    }
    assert Listed(Pushed(expire, key, h), key, h);
  }

  /** The least time of expiry whose day is `key` or later; days before the epoch are cut towards zero. */
  function Reaches(key: int): int {
    if key > 0 then key * DAY else (key - 1) * DAY + 1
  }

  lemma KeyReaches(c: Cert, key: int)
    ensures KeyOf(c) >= key <==> c.notAfter >= Reaches(key)
  {
    var q := KeyOf(c);
    assert q >= key ==> q * DAY >= key * DAY;
    assert q < key ==> (q + 1) * DAY <= key * DAY;
  }

  /**
   The index key counts days, the cutoff seconds. So whatever came before, a certificate that was just cached outlives
   a sweep if and only if it is valid for the cutoff's number of days, not of seconds, after the epoch, and its name
   is not left over in an older bucket that is due.
   */
  lemma FreshCertSurvivesIff(env: Env, ops: seq<Op>, h: Host, name: Host, c: Cert, now: int, days: int)
    requires Caches(env, h, name, c) && h !in Run(env, ops).hostCert
    ensures var cutoff := now + days * DAY;
            name in Swept(Run(env, ops + [Get(h)]), _ => now, days).hostCert <==>
            c.notAfter >= Reaches(cutoff) && !ListedBelow(Run(env, ops).expire, cutoff, name)
  {
    var s, t := Run(env, ops), Run(env, ops + [Get(h)]);
    CachesIs(env, h, name, c);
    assert (ops + [Get(h)])[..|ops|] == ops;
    assert t == Stored(s, c);
    RunIsIndexed(env, ops + [Get(h)]);
    SurvivesIff(t, now, days, name);
    DueIsListedBelow(t.expire, now + days * DAY, name);
    PushedBelow(s.expire, KeyOf(c), name, now + days * DAY);
    KeyReaches(c, now + days * DAY);
  }

  /** A certificate with three more months to go does not survive a sweep in late November 2025. */
  lemma FreshCertIsSwept(env: Env, ops: seq<Op>, h: Host, name: Host, c: Cert)
    requires Caches(env, h, name, c) && h !in Run(env, ops).hostCert && c.notAfter == 1_764_000_000 + 90 * DAY
    ensures name !in Swept(Run(env, ops + [Get(h)]), _ => 1_764_000_000, 2).hostCert
  {
    FreshCertSurvivesIff(env, ops, h, name, c, 1_764_000_000, 2);
  }
}
