/**
 The certificate cache: a map from host to certificate, and an index of hosts by expiry day that the daily sweep
 walks in order. The index is kept as the list of its buckets in key order.
 */
module CertCache {
  import opened Basics

  type Host = string

  /** What decoding the first certificate of the chain does: it works, returns an error, or panics. */
  datatype Form = Parses | FailsToParse | Panics

  datatype Cert = Cert(id: nat, form: Form, names: seq<Host>, notAfter: int)

  datatype Loaded = Found(cert: Cert) | Missing | Broken

  /** The loader and `sub_host`. */
  datatype Env = Env(load: Host -> Loaded, sub: Host -> Option<Host>)

  datatype Answer = Have(cert: Cert) | Nothing | LoadError | ParseError | Panic

  datatype Bucket = Bucket(key: int, hosts: seq<Host>)

  datatype Cache = Cache(hostCert: map<Host, Cert>, expire: seq<Bucket>)

  const DAY: int := 86400

  /** Integer division as the machine does it, towards zero. */
  function TruncatedDiv(a: int, b: int): (q: int)
    requires b > 0
    ensures a >= 0 ==> q * b <= a < q * b + b
    ensures a < 0 ==> a <= q * b < a + b
  {
    if a >= 0 then a / b else -((-a) / b)
  }

  /** The index key is the day of expiry. */
  function KeyOf(c: Cert): int {
    TruncatedDiv(c.notAfter, DAY)
  }

  /** The first of the shortest names. */
  function ShortestAt(names: seq<Host>): (k: nat)
    requires names != []
    ensures k < |names|
    ensures forall i | 0 <= i < |names| :: |names[k]| <= |names[i]| && (i < k ==> |names[k]| < |names[i]|)
  {
    if |names| == 1 then 0 else
    var k := ShortestAt(names[1..]);
    if |names[0]| <= |names[k + 1]| then 0 else k + 1
  }

  function Shortest(names: seq<Host>): Host
    requires names != []
  {
    names[ShortestAt(names)]
  }

  /** `entry(key).or_default().push(host)` */
  function Pushed(expire: seq<Bucket>, key: int, host: Host): seq<Bucket> {
    if expire == [] || key < expire[0].key then [Bucket(key, [host])] + expire
    else if key == expire[0].key then [Bucket(key, expire[0].hosts + [host])] + expire[1..]
    else [expire[0]] + Pushed(expire[1..], key, host)
  }

  ghost predicate Sorted(expire: seq<Bucket>) {
    forall i, j | 0 <= i < j < |expire| :: expire[i].key < expire[j].key
  }

  ghost predicate Listed(expire: seq<Bucket>, key: int, host: Host) {
    exists i :: 0 <= i < |expire| && expire[i].key == key && host in expire[i].hosts
  }

  lemma ListedCons(first: Bucket, rest: seq<Bucket>, key: int, host: Host)
    ensures Listed([first] + rest, key, host) <==>
            (first.key == key && host in first.hosts) || Listed(rest, key, host)
  {
    var all := [first] + rest;
    if first.key == key && host in first.hosts {
      assert all[0] == first;
    }
    if i :| 0 <= i < |rest| && rest[i].key == key && host in rest[i].hosts {
      assert all[i + 1] == rest[i];
    }
  }

  lemma {:induction false} PushedKeepsOrder(expire: seq<Bucket>, key: int, host: Host)
    requires Sorted(expire)
    ensures Sorted(Pushed(expire, key, host))
    ensures Pushed(expire, key, host)[0].key == if expire == [] || key < expire[0].key then key else expire[0].key
  {
    if expire != [] && key > expire[0].key {
      PushedKeepsOrder(expire[1..], key, host);
      var rest := Pushed(expire[1..], key, host);
      assert forall j | 0 < j < |rest| :: rest[0].key < rest[j].key;
    }
  }

  lemma {:induction false} PushedLists(expire: seq<Bucket>, key: int, host: Host, k: int, h: Host)
    ensures Listed(Pushed(expire, key, host), k, h) <==> Listed(expire, k, h) || (k == key && h == host)
  {
    if expire == [] || key < expire[0].key {
      ListedCons(Bucket(key, [host]), expire, k, h);
    } else {
      assert expire == [expire[0]] + expire[1..];
      ListedCons(expire[0], expire[1..], k, h);
      if key == expire[0].key {
        ListedCons(Bucket(key, expire[0].hosts + [host]), expire[1..], k, h);
      } else {
        PushedLists(expire[1..], key, host, k, h);
        ListedCons(expire[0], Pushed(expire[1..], key, host), k, h);
      }
    }
  }

  // ---- Lookup --------------------------------------------------------------------------------------------------

  /** Loading and decoding, without a cache. */
  function Lookup(env: Env, h: Host): Answer {
    match env.load(h)
    case Broken => LoadError
    case Missing => Nothing
    case Found(c) =>
      match c.form
      case FailsToParse => ParseError
      case Panics => Panic
      case Parses => Have(c)
  }

  /** What `get` means: the certificate of the host, else that of its parent, else not found. */
  function Uncached(env: Env, host: Host): Answer {
    var a := Lookup(env, host);
    if a != Nothing || env.sub(host).None? then a else Lookup(env, env.sub(host).value)
  }

  function Stored(s: Cache, c: Cert): Cache {
    if c.names == [] then s else
    var host := Shortest(c.names);
    Cache(s.hostCert[host := c], Pushed(s.expire, KeyOf(c), host))
  }

  function Fetched(env: Env, s: Cache, h: Host): (Cache, Answer) {
    if h in s.hostCert then (s, Have(s.hostCert[h])) else
    var a := Lookup(env, h);
    (if a.Have? then Stored(s, a.cert) else s, a)
  }

  function Got(env: Env, s: Cache, host: Host): (Cache, Answer) {
    var (t, a) := Fetched(env, s, host);
    if a != Nothing || env.sub(host).None? then (t, a) else Fetched(env, t, env.sub(host).value)
  }

  // ---- What a lookup does --------------------------------------------------------------------------------------

  /** Name `k` is the first of the shortest. */
  ghost predicate IsFirstShortest(names: seq<Host>, k: nat) {
    k < |names| && forall i | 0 <= i < |names| :: |names[k]| <= |names[i]| && (i < k ==> |names[k]| < |names[i]|)
  }

  /** What one host is answered with: the cached certificate, or else what its loader gives. */
  ghost predicate Answers(env: Env, s: Cache, h: Host, a: Answer) {
    if h in s.hostCert then a == Have(s.hostCert[h]) else
    match a
    case Have(c) => env.load(h) == Found(c) && c.form == Parses
    case Nothing => env.load(h) == Missing
    case LoadError => env.load(h) == Loaded.Broken
    case ParseError => env.load(h).Found? && env.load(h).cert.form == FailsToParse
    case Panic => env.load(h).Found? && env.load(h).cert.form == Panics
  }

  /** Certificate `c` was cached and listed under `name` by its day, and nothing else happened. */
  ghost predicate CachedUnder(s: Cache, t: Cache, name: Host, c: Cert) {
    && t.hostCert == s.hostCert[name := c]
    && (forall key, h :: Listed(t.expire, key, h) <==>
          Listed(s.expire, key, h) || (key == TruncatedDiv(c.notAfter, 86400) && h == name))
  }

  /** A lookup caches a certificate exactly if one was loaded and has names, under its first shortest name. */
  lemma FetchedIs(env: Env, s: Cache, h: Host)
    ensures var (t, a) := Fetched(env, s, h);
            && Answers(env, s, h, a)
            && (h in s.hostCert || !a.Have? || a.cert.names == [] ==> t == s)
            && (h !in s.hostCert && a.Have? ==>
                  forall k: nat | IsFirstShortest(a.cert.names, k) :: CachedUnder(s, t, a.cert.names[k], a.cert))
  {
    var (t, a) := Fetched(env, s, h);
    if h !in s.hostCert && a.Have? {
      forall k: nat | IsFirstShortest(a.cert.names, k) ensures CachedUnder(s, t, a.cert.names[k], a.cert) {
        assert k == ShortestAt(a.cert.names);
        forall key, host
          ensures Listed(t.expire, key, host) <==>
                  Listed(s.expire, key, host) || (key == KeyOf(a.cert) && host == a.cert.names[k])
        {
          PushedLists(s.expire, KeyOf(a.cert), a.cert.names[k], key, host);
        }
      }
    }
  }

  /** A host answers for itself; only if nothing is found for it and it has a parent, the parent answers. */
  lemma GotIs(env: Env, s: Cache, host: Host)
    ensures var (t, a) := Got(env, s, host);
            if Answers(env, s, host, Nothing) && env.sub(host).Some? then
              Answers(env, s, env.sub(host).value, a) && t == Fetched(env, s, env.sub(host).value).0
            else
              Answers(env, s, host, a) && t == Fetched(env, s, host).0
  {
    FetchedIs(env, s, host);
  }

  // ---- Sweep ---------------------------------------------------------------------------------------------------

  /** The clock readings of one sweep, one per bucket looked at, as cutoffs in seconds. */
  function Cutoff(clock: nat -> int, days: int, i: nat): int {
    clock(i) + days * 24 * 60 * 60
  }

  /** How many buckets the sweep takes before it meets one that is not due. */
  function SweepLength(expire: seq<Bucket>, clock: nat -> int, days: int, i: nat): (n: nat)
    requires i <= |expire|
    ensures i <= n <= |expire|
    ensures forall k | i <= k < n :: expire[k].key < Cutoff(clock, days, k)
    ensures n < |expire| ==> expire[n].key >= Cutoff(clock, days, n)
    decreases |expire| - i
  {
    if i == |expire| || expire[i].key >= Cutoff(clock, days, i) then i
    else SweepLength(expire, clock, days, i + 1)
  }

  function HostsOf(buckets: seq<Bucket>): set<Host> {
    set i, h | 0 <= i < |buckets| && h in buckets[i].hosts :: h
  }

  function Swept(s: Cache, clock: nat -> int, days: int): Cache {
    var n := SweepLength(s.expire, clock, days, 0);
    Cache(s.hostCert - HostsOf(s.expire[..n]), s.expire[n..])
  }

  function RemoveKey(expire: seq<Bucket>, key: int): seq<Bucket> {
    if expire == [] then [] else
    if expire[0].key == key then RemoveKey(expire[1..], key) else [expire[0]] + RemoveKey(expire[1..], key)
  }

  lemma {:induction false} RemoveKeyIsIdle(expire: seq<Bucket>, key: int)
    requires forall i | 0 <= i < |expire| :: expire[i].key != key
    ensures RemoveKey(expire, key) == expire
  {
    if expire != [] {
      RemoveKeyIsIdle(expire[1..], key);
    }
  }

  lemma RemoveFirstKey(expire: seq<Bucket>)
    requires Sorted(expire) && expire != []
    ensures RemoveKey(expire, expire[0].key) == expire[1..]
  {
    RemoveKeyIsIdle(expire[1..], expire[0].key);
  }

  class CertLoader {
    const env: Env
    var hostCert: map<Host, Cert>
    var expire: seq<Bucket>

    function Snapshot(): Cache
      reads this
    {
      Cache(hostCert, expire)
    }

    ghost predicate Valid()
      reads this
    {
      Sorted(expire)
    }

    constructor (env: Env)
      ensures Valid() && this.env == env && Snapshot() == Cache(map[], [])
    {
      this.env := env;
      hostCert := map[];
      expire := [];
    }

    method CertByHost(h: Host) returns (a: Answer)
      requires Valid()
      modifies this
      ensures Valid() && (Snapshot(), a) == Fetched(env, old(Snapshot()), h)
    {
      if h in hostCert {
        return Have(hostCert[h]);
      }
      var loaded := env.load(h);
      match loaded
      case Broken => a := LoadError;
      case Missing => a := Nothing;
      case Found(cert) =>
        if cert.form == FailsToParse {
          return ParseError;
        }
        if cert.form == Panics {
          return Panic;
        }
        var certExpire := KeyOf(cert);
        if cert.names != [] {
          var shortest := Shortest(cert.names);
          hostCert := hostCert[shortest := cert];
          PushedKeepsOrder(expire, certExpire, shortest);
          expire := Pushed(expire, certExpire, shortest);
        }
        a := Have(cert);
    }

    method Get(host: Host) returns (a: Answer)
      requires Valid()
      modifies this
      ensures Valid() && (Snapshot(), a) == Got(env, old(Snapshot()), host)
    {
      a := CertByHost(host);
      if a != Nothing {
        return;
      }
      var parent := env.sub(host);
      if parent.Some? {
        a := CertByHost(parent.value);
      }
    }

    method ForgetHosts(hosts: seq<Host>)
      modifies this`hostCert
      ensures hostCert == old(hostCert) - set h | h in hosts
    {
      var j := 0;
      while j < |hosts|
        invariant j <= |hosts|
        invariant hostCert == old(hostCert) - set h | h in hosts[..j]
      {
        hostCert := hostCert - {hosts[j]};
        j := j + 1;
      }
    }

    /** Walk the index in order, with a fresh clock reading per bucket, up to the first bucket that is not due. */
    method ForgetDue(days: int, clock: nat -> int) returns (toRemove: seq<int>)
      modifies this`hostCert
      ensures |toRemove| == SweepLength(expire, clock, days, 0)
      ensures forall k | 0 <= k < |toRemove| :: toRemove[k] == expire[k].key
      ensures hostCert == old(hostCert) - HostsOf(expire[..|toRemove|])
    {
      toRemove := [];
      var i := 0;
      while i < |expire|
        invariant i <= |expire|
        invariant SweepLength(expire, clock, days, i) == SweepLength(expire, clock, days, 0)
        invariant hostCert == old(hostCert) - HostsOf(expire[..i])
        invariant |toRemove| == i && forall k | 0 <= k < i :: toRemove[k] == expire[k].key
      {
        var bucket := expire[i];
        if bucket.key >= Cutoff(clock, days, i) {
          break;
        }
        ForgetHosts(bucket.hosts);
        HostsOfMore(expire, i);
        toRemove := toRemove + [bucket.key];
        i := i + 1;
      }
    }

    method DropBuckets(keys: seq<int>)
      requires Valid() && |keys| <= |expire| && forall k | 0 <= k < |keys| :: keys[k] == expire[k].key
      modifies this`expire
      ensures Valid() && expire == old(expire)[|keys|..]
    {
      var r := 0;
      while r < |keys|
        invariant r <= |keys| && Sorted(expire) && expire == old(expire)[r..]
      {
        RemoveFirstKey(expire);
        expire := RemoveKey(expire, keys[r]);
        r := r + 1;
      }
    }

    method RmExpired(days: int, clock: nat -> int)
      requires Valid()
      modifies this
      ensures Valid() && Snapshot() == Swept(old(Snapshot()), clock, days)
    {
      var toRemove := ForgetDue(days, clock);
      if toRemove != [] {
        DropBuckets(toRemove);
      }
    }
  }

  /**
   A sweep reads the clock once per bucket, takes the leading buckets that are due out of the index, and forgets the
   hosts listed in them.
   */
  lemma SweptIs(s: Cache, clock: nat -> int, days: int) returns (n: nat)
    ensures n <= |s.expire| && forall k | 0 <= k < n :: s.expire[k].key < clock(k) + days * 86400
    ensures n < |s.expire| ==> s.expire[n].key >= clock(n) + days * 86400
    ensures var t := Swept(s, clock, days);
            && t.expire == s.expire[n..]
            && (forall h :: h in t.hostCert <==> h in s.hostCert && forall k | 0 <= k < n :: h !in s.expire[k].hosts)
            && (forall h | h in t.hostCert :: t.hostCert[h] == s.hostCert[h])
  {
    n := SweepLength(s.expire, clock, days, 0);
    forall h ensures h in HostsOf(s.expire[..n]) <==> exists k :: 0 <= k < n && h in s.expire[k].hosts {
      HostsOfPrefix(s.expire, n, h);
    }
  }

  lemma HostsOfMore(expire: seq<Bucket>, i: nat)
    requires i < |expire|
    ensures HostsOf(expire[..i + 1]) == HostsOf(expire[..i]) + set h | h in expire[i].hosts
  {
    var more := expire[..i + 1];
    forall h | h in expire[i].hosts ensures h in HostsOf(more) {
      assert more[i] == expire[i];
    }
    forall h | h in HostsOf(expire[..i]) ensures h in HostsOf(more) {
      var k :| 0 <= k < i && h in expire[..i][k].hosts;
      assert more[k] == expire[..i][k];
    }
  }

  lemma HostsOfPrefix(expire: seq<Bucket>, n: nat, h: Host)
    requires n <= |expire|
    ensures h in HostsOf(expire[..n]) <==> exists i :: 0 <= i < n && h in expire[i].hosts
  {
    if i :| 0 <= i < n && h in expire[i].hosts {
      assert expire[..n][i] == expire[i];
    }
  }
}
