/**
 * The per-address request counter behind denial-of-service detection
 * (target/server.js): `requestCounts[cleanIp] = (requestCounts[cleanIp] || 0) + 1`
 * on every request that reaches the middleware, an event whenever the new count
 * exceeds 100, and a wholesale reset every 60 seconds (a fixed bucket, not a
 * sliding window).
 */
module RequestCounting {

  /** More requests than this from one address in one window is a DoS burst. */
  const DosThreshold := 100

  /** `requestCounts[ip] || 0`. */
  function Count(counts: map<string, nat>, ip: string): nat {
    if ip in counts then counts[ip] else 0
  }

  /** The counts after one more request from `ip`. */
  function Tally(counts: map<string, nat>, ip: string): (r: map<string, nat>)
    ensures Count(r, ip) == Count(counts, ip) + 1
    ensures forall other :: other != ip ==> Count(r, other) == Count(counts, other)
    ensures r.Keys == counts.Keys + {ip}
  {
    counts[ip := Count(counts, ip) + 1]
  }

  /** The counts after the requests from `ips`, in order, within one window. */
  function AfterHits(counts: map<string, nat>, ips: seq<string>): map<string, nat>
    decreases |ips|
  {
    if ips == [] then counts else Tally(AfterHits(counts, ips[..|ips| - 1]), ips[|ips| - 1])
  }

  /** How many of `ips` are `a`. */
  function Occurrences(ips: seq<string>, a: string): nat
    decreases |ips|
  {
    if ips == [] then 0
    else Occurrences(ips[..|ips| - 1], a) + (if ips[|ips| - 1] == a then 1 else 0)
  }

  /** The number of DOS_ATTACK events for address `a` among the requests `ips` of one window. */
  function DosEvents(counts: map<string, nat>, ips: seq<string>, a: string): nat
    decreases |ips|
  {
    if ips == [] then 0
    else
      var before := AfterHits(counts, ips[..|ips| - 1]);
      var last := ips[|ips| - 1];
      DosEvents(counts, ips[..|ips| - 1], a) +
      (if last == a && Count(before, a) + 1 > DosThreshold then 1 else 0)
  }

  /** How far `n` exceeds the threshold. */
  function Excess(n: nat): nat {
    if n > DosThreshold then n - DosThreshold else 0
  }

  /** Each request adds exactly one to its own address's count and nothing to the others'. */
  lemma {:induction false} CountAfterHits(counts: map<string, nat>, ips: seq<string>, a: string)
    ensures Count(AfterHits(counts, ips), a) == Count(counts, a) + Occurrences(ips, a)
    decreases |ips|
  {
    if ips != [] {
      CountAfterHits(counts, ips[..|ips| - 1], a);
    }
  }

  /**
   * Within one window, address `a` gets one DOS_ATTACK event for every request
   * beyond the hundredth, whatever the other addresses do in between.
   */
  lemma {:induction false} DosEventsInWindow(counts: map<string, nat>, ips: seq<string>, a: string)
    ensures DosEvents(counts, ips, a) == Excess(Count(counts, a) + Occurrences(ips, a)) - Excess(Count(counts, a))
    decreases |ips|
  {
    if ips != [] {
      DosEventsInWindow(counts, ips[..|ips| - 1], a);
      CountAfterHits(counts, ips[..|ips| - 1], a);
    }
  }

  /** From a fresh window, 101 requests from one address give exactly one event and 102 give two. */
  lemma {:induction false} DosEventsFromReset(ips: seq<string>, a: string)
    ensures DosEvents(map[], ips, a) == Excess(Occurrences(ips, a))
    ensures Occurrences(ips, a) <= DosThreshold ==> DosEvents(map[], ips, a) == 0
    ensures Occurrences(ips, a) == 101 ==> DosEvents(map[], ips, a) == 1
    ensures Occurrences(ips, a) == 102 ==> DosEvents(map[], ips, a) == 2
  {
    DosEventsInWindow(map[], ips, a);
  }

  /** The counter the middleware updates in place. */
  class RequestCounter {
    var counts: map<string, nat>

    constructor ()
      ensures counts == map[]
    {
      counts := map[];
    }

    /** One request from `ip`; returns its new count, the value the DoS check reads. */
    method Hit(ip: string) returns (count: nat)
      modifies this
      ensures counts == Tally(old(counts), ip)
      ensures count == Count(old(counts), ip) + 1 && count == Count(counts, ip)
    {
      count := Count(counts, ip) + 1;
      counts := counts[ip := count];
    }

    /** The window timer: `requestCounts = {}`. */
    method Reset()
      modifies this
      ensures counts == map[]
    {
      counts := map[];
    }
  }
}
