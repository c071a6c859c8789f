# gway, modelled and proved

gway is a reverse proxy that accepts HTTP/1, HTTP/2 and HTTP/3 and forwards to HTTP/1 upstreams. This project models
the parts of it that carry state and proves what holds in every run of them. Nothing was executed: everything said
here is checked by the Dafny verifier alone (`dafny verify dfyconfig.toml`, Dafny 4.11).

| file | what it models |
|---|---|
| `S2nQuic.dfy`, `S2nQuicRuns.dfy` | the send half of an HTTP/3 stream: chunk and buffer slots in front of a QUIC stream that may block or fail at any poll |
| `H3Relay.dfy` | the response relay loop on top of it |
| `Pool.dfy`, `PoolRuns.dfy`, `PoolRequests.dfy`, `PoolOrder.dfy` | the global connection pool, all interleavings of proxied requests, body drops and cleanup tasks, the course of one request, and which connection it is handed |
| `Proxy.dfy` | the wrapping round robin counter and the retry loop |
| `Shutdown.dfy`, `ShutdownHistory.dfy` | the two shutdown locks, the three listeners, the joiner and the connection tasks |
| `CertCache.dfy`, `CertCacheRuns.dfy` | the certificate cache, its expiry index and the daily sweep |
| `Route.dfy` | the routing table and the redirects of both ports |
| `Registration.dfy` | socket registration with bounded exponential backoff |
| `Basics.dfy` | byte sequences |

Objects that the code updates in place are classes, and their methods are proved equal to functions on values. The
concurrent parts are step machines: a run is any list of enabled events from the initial state, and the theorems speak
of every state of every run. The QUIC stream, the network, the clock, the certificate loader, `sub_host` and the udpgrm
daemon are arbitrary functions or free choices.

## What the code does not do

Some properties one would expect are false. For each there is a concrete run or input, and the exact condition.

* The pool is not a most-recently-used list, although `pooled_fetch/README.md` says so: `pop_back` takes the greatest
  peer address. `PoolOrder.OlderIsTaken` is a run in which the connection returned earlier is handed out.
  `PoolOrder.PopsMostRecentIff`: it is the most recent one if and only if that one has the greatest peer address. This
  is always so if connections report the dialled address as their peer (`PoolOrder.PopsMostRecent`), as an address
  then never has more than one pooled connection (`PoolRuns.OneSlotPerAddress`).
* A cleanup task can throw away a healthy connection of somebody else. `PoolRuns.RemoveKeyRaces` is a run in which the
  second cleanup step does it; `PoolRuns.PooledUntil` says by exactly which steps a pooled connection is lost.
* A broken connection can sit in the pool, until it is taken or evicted, because cleanup reaches only what is pooled
  when the connection's task ends. `PoolOrder.DeadIsPooled` is a run in which it breaks while its body is still held.
  `PoolOrder.DeadInPoolIff`: a pooled connection is dead if and only if it was dead already when last given back.
* A request that always fails is given up if and only if `max_retry` is not the greatest machine word, where the retry
  counter wraps (`Proxy.GivesUpUnlessGreatest`).
* The server can stop though nobody asked. A listener that polls `shutdown_lock` before the stop task has it ends at
  once (`Shutdown.ServerMayStopUnasked`), and a shutdown future that panics, as `signal` does when a handler cannot be
  registered, gives the lock back (`Shutdown.ServerMayStopOnPanic`). As long as the future has not resolved, some
  listener has ended if and only if one left before the lock was taken, left after the future panicked, or ended of
  itself (`Shutdown.EndedUnaskedIff`).
* The final wait covers exactly the connections that took their read guard in time (`Shutdown.DrainIsSafe`): not
  accepted connections that had not started, and not the request tasks of an HTTP/2 or HTTP/3 connection that has ended
  (`Shutdown.DrainLeavesBehind` is a run with all three). A request task is left behind if and only if some such
  connection ended before one that it had spawned (`Shutdown.RequestsLeftBehindIff`).
* The certificate cache may disagree with its loader (`CertCacheRuns.CacheMayDisagree`). It is transparent if and only
  if no lookup caches a certificate under a name that answers otherwise (`CertCacheRuns.TransparentIffStable`).
* The expiry index counts days and the sweep's cutoff seconds, so a sweep removes certificates that are nowhere near
  expiry (`CertCacheRuns.FreshCertIsSwept`); `CertCacheRuns.FreshCertSurvivesIff` says which survive.
* A redirect need not lead back to its host: that of `OPTIONS *` to `a.com` leads to `a.com*` (`Route.StarGoesAstray`).
  `Route.FollowedIff` says for which hosts and paths it does.
* Eight EAGAIN in a row make `retrying_setsockopt` return as if it had succeeded, so a finished registration may lack
  the advance that was asked for (`Registration.MissesTheAdvance`); that is exactly when it does
  (`Registration.Register`).

## Model

| member | source | states |
|---|---|---|
| S2nQuic.SendStream.PollReady | src/srv/s2n_quic.rs:378-412 | `poll_ready` terminates and moves pieces to the stream in order until one is not taken; that piece is the new chunk, the later ones the new buffer, and both slots are empty on Ready |
| S2nQuic.LoopIsFlushed | src/srv/s2n_quic.rs:379-412 | the passes of the flush loop, which copy one piece and then send it, amount to sending the longest run of pieces the stream takes |
| S2nQuic.SendStream.SendData | src/srv/s2n_quic.rs:419-428 | refuses while a buffer is present and changes nothing then; otherwise only the buffer changes |
| S2nQuic.SendStream.PollFinish | src/srv/s2n_quic.rs:441-450 | finishes the QUIC stream only after a flush that ended in Ready |
| S2nQuic.SendStream.Reset | src/srv/s2n_quic.rs:452-456 | aborts an open stream and keeps both slots |
| S2nQuic.QuicStream.PollSend | src/srv/s2n_quic.rs:382-387 | the transport's contract: on Ready the whole chunk is taken, otherwise nothing |
| S2nQuicRuns.Execute | src/srv/s2n_quic.rs:378-428 | the hidden invariant: in every reachable state, also after errors, a present chunk is not empty and implies a present buffer |
| S2nQuicRuns.Perform | src/srv/s2n_quic.rs:378-456 | the calls that runs are made of are the methods of the stream |
| S2nQuicRuns.RunConserves | src/srv/s2n_quic.rs:378-450 | byte conservation: in every run, delivered ++ chunk ++ buffer is the concatenation of all accepted data |
| S2nQuicRuns.DeliveredIsPrefix | src/srv/s2n_quic.rs:378-450 | the peer has a prefix of the accepted bytes, and it only grows at the end (section 2.2 of RFC 9000) |
| S2nQuicRuns.ReadyMeansDelivered | src/srv/s2n_quic.rs:408-412 | a call that answers Ready has delivered everything accepted so far |
| S2nQuicRuns.SchedulesAgree | src/srv/s2n_quic.rs:378-412 | runs that accepted the same bytes and end Ready delivered the same bytes, under any schedules |
| S2nQuicRuns.FinishCarriesEverything | src/srv/s2n_quic.rs:441-450 | at FIN the peer has every accepted byte, and no later call delivers another |
| S2nQuicRuns.StatusIsHistory | src/srv/s2n_quic.rs:441-456 | in every run the stream is finished exactly by a `poll_finish` that answered Ready, or aborted by a reset, whichever came first |
| S2nQuicRuns.GuardIsExact | src/srv/s2n_quic.rs:419-428 | looking at `buf` alone, `send_data` refuses in every run exactly while accepted data has not been flushed, in particular whenever a piece is waiting |
| S2nQuicRuns.EveryPendingIsPaid | src/srv/s2n_quic.rs:382-383 | polls in a row that answer Pending use up exactly one Blocked answer each |
| S2nQuicRuns.ReadyWithin | src/srv/s2n_quic.rs:378-412 | if the stream does not fail and blocks at most p more times, one of the next p + 1 polls is Ready |
| H3Relay.Write | src/srv/h3.rs:174-180 | sending one frame delivers exactly its bytes after what was there, or a prefix of them when the stream fails or the task is dropped; it is refused exactly if earlier data still waits, and then nothing changes; a stream error means that a poll failed |
| H3Relay.RelayBody | src/srv/h3.rs:176-181 | the data frames of the body follow what was sent, in order and complete, up to the end of the body or its first error; frames without data are skipped; it breaks off early only if a poll failed or the task was dropped |
| H3Relay.Finish | src/srv/h3.rs:182 | what still waits is delivered before FIN; completion and FIN coincide; an error means that a poll failed or the finish was refused |
| H3Relay.HandleReq | src/srv/h3.rs:170-185 | the peer gets a prefix of head ++ data frames; all of it on completion, which is exactly when FIN is sent, and up to the error when the body breaks off; the stream is asked to finish at most once, after all of a sound body is delivered, and stays open otherwise; no `send_data` is refused; over a stream that does not fail, with wakes enough, a sound body is always relayed to FIN |
| Pool.SharedPool.CachedConn | pooled_fetch/src/http.rs:45-55 | takes the connection with the greatest peer key and removes just that slot; fails exactly if the address has none |
| Pool.SharedPool.Insert | pooled_fetch/src/body.rs:30-38 | the connection is at its key afterwards and every other slot is as before |
| Pool.SharedPool.CleanSlot | pooled_fetch/src/http.rs:21-28 | drops one slot and reports whether the address is left without any |
| Pool.SharedPool.CleanKey | pooled_fetch/src/http.rs:29-31 | drops the address with whatever it holds by then |
| PoolRuns.EveryConnectionInOnePlace | pooled_fetch/src/http.rs:17-74 | exclusivity: in every state of every run each dialled connection is in exactly one of: a request, a body, a slot, dropped, leaked |
| PoolRuns.PoolIsAffine | pooled_fetch/src/body.rs:30-38 | everything pooled for an address was dialled to it, is under its own peer key, and no send on it failed |
| PoolRuns.NoResurrection | pooled_fetch/src/http.rs:57-70 | after a failed send a connection is in no later state in a request, a body or the pool |
| PoolRuns.AbortedNeedsNoCleanup | pooled_fetch/src/http.rs:63-70 | in every run an aborted connection, whose cleanup is cut off, is neither in the pool nor in a request or body |
| PoolRuns.RoundTripRuns | pooled_fetch/src/http.rs:57-74 | a request that finds an empty pool, dials, is answered and drops its body leaves exactly that connection pooled under its address |
| PoolRuns.PooledUntil | pooled_fetch/src/http.rs:17-55 | in every run a pooled connection is lost by exactly three kinds of step, whoever they belong to; otherwise it stays or is taken by a request for its address, greatest peer key first |
| PoolRuns.CleanedUp | pooled_fetch/src/http.rs:21-28 | in every run, right after its own first cleanup step a connection is not in the pool |
| PoolRuns.RemoveKeyRaces | pooled_fetch/src/http.rs:21-31 | a run in which the second cleanup step leaks a live idle connection that was inserted after the first |
| PoolRuns.GravesAreForGood | pooled_fetch/src/http.rs:21-31 | what was dropped or leaked is at that place in every later state and nowhere else |
| PoolRuns.OneSlotPerAddress | pooled_fetch/src/body.rs:30-38 | if peers are the dialled addresses, an address has at most one pooled connection |
| PoolOrder.SlotIsLastReturn | pooled_fetch/src/body.rs:30-38 | in every run a slot holds the connection of the latest body drop for that address and peer |
| PoolOrder.SomeIsMostRecent | pooled_fetch/src/body.rs:30-38 | of the connections pooled for an address exactly one was returned last |
| PoolOrder.PopsMostRecentIff | pooled_fetch/src/http.rs:45-55 | in every run a request takes the most recently returned connection of its address if and only if that one has the greatest peer address |
| PoolOrder.PopsMostRecent | pooled_fetch/src/http.rs:45-55 | it always does if connections report the dialled address as their peer |
| PoolOrder.OlderIsTaken | pooled_fetch/src/http.rs:45-55 | a run in which the connection returned earlier is taken, its peer address being greater |
| PoolOrder.DeadInPoolIff | pooled_fetch/src/http.rs:17-31 | in every run the task of a pooled connection has ended if and only if it had ended when the connection was last given back |
| PoolOrder.DeadIsPooled | pooled_fetch/src/body.rs:30-38 | a run in which a connection is given back after its task and its cleanup have ended |
| PoolRuns.ProxiedRequestIsBounded | src/proxy.rs:88-107 | at most max_retry + 1 dials and twice as many sends, each on a connection dialled to its attempt's address, a second one per attempt only fresh after a stale pooled one; failed requests hold nothing; an answered one holds the connection of its last send in its body, exactly until that body is dropped |
| PoolRuns.AttemptsAreUsedUp | src/proxy.rs:98-105 | in every run each attempt before the present one was lost at the address it was meant for, by a failed dial, a failed send on a fresh connection, or a failed send on a pooled one that was not just stale |
| PoolRuns.FailedRequestTriedAll | src/proxy.rs:87-107 | with max_retry + 1 at least the number of addresses, a failed request has lost, for each address, an attempt there in one of these ways |
| PoolRequests.RetryCounts | src/proxy.rs:98-105 | the retry counter counts lost attempts and nothing else; after a lost attempt the next begins, or the request fails, exactly as the counter passes max_retry |
| PoolRequests.StaleIsReplaced | pooled_fetch/src/http.rs:63-72 | after a closed or cancelled error on a pooled connection the request dials, within the same attempt and for the same address |
| PoolRequests.DialsOnlyIfNeeded | pooled_fetch/src/http.rs:57-71 | in every run a request that is about to dial found nothing pooled for its address in this attempt, or found it stale |
| PoolRequests.RequestIsTruthful | src/proxy.rs:62-105 | in every run a request has the upstream, max_retry and draw it arrived with, and its dials and sends are those that happened |
| PoolRequests.EndIsHistory | src/proxy.rs:94-105 | in every run a request has succeeded, was cancelled or has failed exactly if it was answered, was cancelled or lost more than max_retry attempts |
| PoolRequests.RequestIsBounded | src/proxy.rs:88-107 | in every run a request takes at most four steps per attempt, whatever the others do |
| PoolRequests.RequestCanStep | src/proxy.rs:88-107 | in every reachable state a request that has not ended has an enabled step of its own, and one that has ended has none |
| PoolRequests.FlagsAreHistory | pooled_fetch/src/http.rs:63-66 | in every run a connection is aborted exactly if a send on it failed after it came from the pool |
| PoolRequests.TaskMoves | pooled_fetch/src/http.rs:17-32 | the second cleanup step follows exactly if the first left the address without a slot |
| PoolRequests.StepsUseThePool | pooled_fetch/src/http.rs:17-55 | each step of a run changes the pool as the operation of `SharedPool` that it stands for, slot by slot, or not at all |
| Proxy.RoundRobinIsBalanced | src/proxy.rs:83-86 | first picks of two addresses differ by at most 1 + wraps of the counter, and by at most 1 if the length divides the word |
| Proxy.AttemptsCoverUpstream | src/proxy.rs:87-105 | attempts hit every address floor or ceiling of attempts/len times, so all of them once there are enough attempts |
| Proxy.Balancer.Forward | src/proxy.rs:62-107 | the counter moves once per request with an upstream and a body; attempt k goes to (N + k) mod len, all but the last failed, and giving up takes max_retry + 1 attempts |
| Proxy.Attempts | src/proxy.rs:87-107 | the loop terminates whenever max_retry is below the greatest word or some attempt is answered |
| Proxy.GivesUpUnlessGreatest | src/proxy.rs:100-103 | the wrapping retry counter ever exceeds max_retry if and only if max_retry is not the greatest word |
| Shutdown.DrainIsSafe | src/srv/mod.rs:128-133 | while the write guard is held all listeners have ended, each connection that was ever served is done, and exactly those that never took their guard are still unserved |
| Shutdown.NoMoreConnections | src/srv/h1.rs:69-100 | after the listeners have ended no connection is added |
| Shutdown.NobodyLeavesEarly | src/srv/mod.rs:65-73 | after the stop task locked, a listener leaves by its shutdown arm only after the future resolved or panicked, or after an abort that came once some listener had ended |
| Shutdown.LeavesEarlyIff | src/srv/mod.rs:65-73 | a listener leaves by its shutdown arm with no resolved or panicked future and no abort behind it if and only if there is neither a lock nor an abort behind it |
| Shutdown.EndedUnaskedIff | src/srv/mod.rs:45-73 | while the future has not resolved, some listener has ended if and only if one ended of itself, left before the stop task locked, or left after the future panicked; no abort comes first |
| Shutdown.ReturnedHasACause | src/srv/mod.rs:45-73 | a server that returned was asked to, or had a listener end in one of those three ways |
| Shutdown.ServerMayStopUnasked | src/srv/mod.rs:65-73 | a run in which the server returns although the stop task never locked and nothing was asked |
| Shutdown.ServerMayStopOnPanic | src/shutdown.rs:6-7 | a run in which the shutdown future panics under the lock and the server returns, with no abort and no listener that ended of itself |
| Shutdown.DrainLeavesBehind | src/srv/h3.rs:110-117 | a run in which the write guard is held while an HTTP/2 and an HTTP/3 request are served and an accepted connection has not started |
| Shutdown.RequestsAreCounted | src/srv/h3.rs:110-117 | in every run, for each connection, requests being served plus requests ended are the requests spawned |
| Shutdown.RunRequestsAreSpawned | src/srv/h2.rs:89-98 | every request task running was spawned by an HTTP/2 or HTTP/3 connection that took its guard |
| Shutdown.RequestsLeftBehindIff | src/srv/h3.rs:110-117 | while the write guard is held, request tasks still run if and only if some HTTP/2 or HTTP/3 connection ended before one that it spawned; never if none was accepted |
| Shutdown.ExitsStayOpen | src/srv/h2.rs:101-103 | once the stop task is over every running listener can leave, from then on |
| Shutdown.LoadFalls | src/srv/mod.rs:130-133 | after the listeners ended, 2·unguarded + guarded falls with each connection step and never rises |
| Shutdown.WorkIsConserved | src/srv/mod.rs:53-133 | in every run, steps taken plus steps that remain change only by two per accepted connection; request tasks and the lock being taken do not count |
| Shutdown.EndIsInSight | src/srv/mod.rs:53-133 | after the listeners ended, every run is the same number of such steps from its end, and the server has returned when none remains |
| Shutdown.SomeStepWorks | src/srv/mod.rs:53-133 | a stopping server that has not returned can always take a step of its own or end a served connection |
| Shutdown.ShutdownCompletes | src/srv/mod.rs:45-54 | once the future has resolved or any listener ended for any reason, the server can return by its own steps and the ends of served connections, within a given number of them |
| ShutdownHistory.ListenerIsHistory | src/srv/mod.rs:53-62 | in every run a listener has ended, and why, exactly by the step that ended it; only the HTTP/3 server can be closed; it is joined exactly if `join` took it |
| ShutdownHistory.JoinerIsHistory | src/srv/mod.rs:126-133 | in every run the server waits for the write guard, holds it and has returned in that order |
| ShutdownHistory.LateConnectionsWait | src/srv/mod.rs:128-133 | no connection begins to be served while the server waits for the write guard or holds it |
| ShutdownHistory.ReturnsAtTheEnd | src/srv/mod.rs:53-133 | the server returns only with all listeners joined, the write guard taken and no connection being served |
| ShutdownHistory.ConnIsHistory | src/srv/h1.rs:86-97 | in every run a connection is waiting, served or done by its own steps, and was accepted by its listener |
| CertCache.CertLoader.CertByHost | src/cert_loader/mod.rs:80-111 | a cached certificate is returned as it is; otherwise the loader decides, and only a decoded certificate with names is cached and indexed; `FetchedIs` spells it out |
| CertCache.CertLoader.Get | src/cert_loader/mod.rs:113-126 | the host's certificate, else its parent's, with the loader's first error passed on; what is loaded is cached under its first shortest name |
| CertCache.FetchedIs | src/cert_loader/mod.rs:80-111 | what one host is answered with, case by case; a certificate is cached exactly if it was loaded, decodes and has names, under the first name of least length, and listed there by its day; nothing else changes |
| CertCache.GotIs | src/cert_loader/mod.rs:113-126 | the parent answers exactly if nothing is found for the host and it has one; otherwise the host answers, errors included |
| CertCache.CertLoader.RmExpired | src/cert_loader/mod.rs:59-78 | takes the leading buckets below their own clock reading's cutoff, their hosts and nothing else |
| CertCache.CertLoader.ForgetDue | src/cert_loader/mod.rs:60-70 | walks the index in order with a fresh clock reading per bucket, forgets the hosts of due buckets and stops at the first that is not due |
| CertCache.CertLoader.DropBuckets | src/cert_loader/mod.rs:72-77 | removing the collected keys one by one leaves the rest of the index |
| CertCache.SweptIs | src/cert_loader/mod.rs:59-78 | with one clock reading per bucket, the leading due buckets leave the index, the hosts listed in them leave the cache, and nothing else changes |
| CertCache.TruncatedDiv | src/cert_loader/mod.rs:89 | division towards zero, for times before the epoch too |
| CertCache.ShortestAt | src/cert_loader/mod.rs:99 | the first among the shortest names |
| CertCache.PushedLists | src/cert_loader/mod.rs:101-106 | pushing lists that host in that bucket and changes no other listing |
| CertCache.PushedKeepsOrder | src/cert_loader/mod.rs:101-106 | the index stays strictly ordered by key |
| CertCacheRuns.TransparentIffStable | src/cert_loader/mod.rs:80-126 | cached and uncached `get` agree after all operations and for all hosts if and only if the loader is stable |
| CertCacheRuns.CacheMayDisagree | src/cert_loader/mod.rs:94-107 | a loader and one lookup after which the cache gives another certificate for a host than the loader |
| CertCacheRuns.NameStableSuffices | src/cert_loader/mod.rs:80-126 | they agree if every certificate is what its shortest name loads |
| CertCacheRuns.RunIsIndexed | src/cert_loader/mod.rs:87-107 | in every run each cached certificate is listed in the bucket of its key |
| CertCacheRuns.SweepTakesDueBuckets | src/cert_loader/mod.rs:61-70 | with a clock that does not run backwards the sweep takes every bucket below the first cutoff and none at or above the last |
| CertCacheRuns.NothingNearExpirySurvives | src/cert_loader/mod.rs:59-78 | with a positive first cutoff no cached certificate that expires before it survives, in any run |
| CertCacheRuns.SurvivesIff | src/cert_loader/mod.rs:61-67 | a host survives exactly if no bucket that lists it is due |
| CertCacheRuns.FreshCertSurvivesIff | src/cert_loader/mod.rs:89 | after any operations, a certificate just cached survives a sweep if and only if its validity in days reaches the cutoff in seconds and no older bucket that is due lists its name |
| CertCacheRuns.FreshCertIsSwept | src/cert_loader/mod.rs:62 | after any operations, a certificate just cached and valid for ninety more days is swept with two days' notice |
| Route.HostConfIsHistory | src/route.rs:52-78 | `host_conf` is the latest effective `set` per host with the upstream as defined at that moment |
| Route.HostSetIsHistory | src/route.rs:52-78 | an upstream's hosts are those set to it since its latest definition, all of them routed |
| Route.Route.AddUpstream | src/route.rs:52-61 | defines or redefines an upstream with no hosts, and leaves every routed host with the upstream it had |
| Route.Route.Set | src/route.rs:63-78 | an unknown upstream changes nothing; a known one routes that host to its present definition, and no upstream is redefined |
| Route.DecisionsAre | src/proxy.rs:62-122 | what both ports decide and with which location, by where a host is served: at itself, else at its parent |
| Route.FollowedIff | src/srv/h1.rs:50 | a location leads back to the host and path it was made of if and only if the host cannot end early and the path can follow a host |
| Route.RedirectLeads | src/srv/h1.rs:32-58 | following the location of a redirect leads to https at the configured host, with the same path and query, where the request is forwarded |
| Route.RedirectsEnd | src/srv/h1.rs:40-58 | a client that follows a redirect is answered without another one, if hosts and paths can be told apart in a URL |
| Route.StarGoesAstray | src/srv/h1.rs:34-50 | the redirect of `OPTIONS *` leads to another host |
| Route.PortsAgree | src/srv/h1.rs:40-58 | both ports agree on where a host is served |
| Registration.RetryingSetsockopt | systemd/udpgrm_activate.py:117-126 | raises exactly on a refusal before eight EAGAIN, applies exactly on a success before that, and sleeps 10·(2^k − 1) ms for k EAGAIN |
| Registration.PollRegistration | systemd/udpgrm_activate.py:245-255 | the loop of ten is always left within eight polls: registered exactly if the daemon reports an index, with the first one reported; raised exactly if a poll fails before that; given up exactly after eight polls without an index; sleeps at most 100·(2^7 − 1) ms |
| Registration.SetGenerations | systemd/udpgrm_activate.py:234-241 | fails exactly if some socket's setsockopt is refused; a socket's generation is set exactly if its setsockopt was reached and applied, and no other is |
| Registration.AwaitIndices | systemd/udpgrm_activate.py:244-255 | succeeds exactly if the daemon reports an index for every socket within eight polls, and every index logged is one that it reported |
| Registration.Advance | systemd/udpgrm_activate.py:258-265 | the advance is the last thing that happens, with every socket already seen, and happens exactly if its setsockopt was applied |
| Registration.Register | systemd/udpgrm_activate.py:221-266 | the outcome is the first thing that goes wrong, in the order of the calls; it finishes if and only if the daemon grants every step; generations are set exactly where the setsockopt applied and all before the first index is seen; every index seen is one the daemon reported; the working generation moves only at the end, by one, through the last socket, after every socket was seen; a requested advance is missing exactly after eight EAGAIN; total sleep is bounded |
| Registration.MissesTheAdvance | systemd/udpgrm_activate.py:117-126 | a daemon with which the registration finishes without the advance, requested or not |

## Left out

- TCP, TLS, QUIC, hyper, h3, s2n-quic and systemd themselves: oracles with the contracts stated in the files.
- Shutdown.RequestsLeftBehindIff: that hyper serves each HTTP/2 stream in a task of its own on the executor it is given, and every HTTP/1 request in the connection's task, is assumed of hyper.
- H3Relay.HandleReq: the head and the frame encoding are arbitrary bytes, and the grease frame that the h3 library may add before FIN is not modelled. Frames without data (trailers) are skipped, as in the code. A task dropped by its executor is the outcome `Cancelled`, after as many polls as it was woken for.
- S2nQuic.QuicStream.PollSend: that a stream takes nothing after FIN or reset is assumed of s2n-quic, as RFC 9000 demands.
- PoolRuns.ProxiedRequestIsBounded: the retry counter is unbounded here; its wrap is the subject of `Proxy.GivesUpUnlessGreatest`.
- PoolRuns.EveryConnectionInOnePlace: that one pool operation is one atomic step is what the map guards give and is assumed.
- Proxy.RoundRobinIsBalanced: requests draw from the counter one after the other; the unsynchronised access to `static mut N` is not modelled. In debug builds the retry counter panics instead of wrapping.
- Shutdown: both locks are fair, as tokio and parking_lot document; taking and giving back a read guard in `select!` is one step. What `srv` does before it spawns the listeners (sockets handed over by systemd, binding, returning an error when that fails) is not modelled.
- CertCacheRuns.TransparentIffStable: one `get` or sweep is one step, and the loader is a function of the host. The code reads and then writes its two structures under separate locks, which does not support more.
- X.509 and key parsing, reading certificate files: a certificate is a value with names, an expiry time and whether decoding works.
- `sub_host` (an external crate), header parsing and response bodies other than the relay: functions or not modelled.
- The acceptors, openers and error conversions of src/srv/s2n_quic.rs, and the receive side: single-branch plumbing.
- Connect and request timeouts: fields of `Upstream` that nothing reads.
- Socket creation, the dissector options, argument parsing and the fd store of systemd/udpgrm_activate.py.
