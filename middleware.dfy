// The API middleware of middleware.ts: a fixed-window rate limiter of 60
// requests per 60-second window per client address, kept in an in-memory
// map. The clock reading and the 1 % chance of a clean-up sweep are
// parameters; logging and the forwarding of the request are not modelled.

module RateLimit {
  import opened Opt
  import opened Strings

  /** Window length in seconds, and requests allowed per window. */
  const WindowSeconds: int := 60
  const Limit: int := 60
  const WindowMs: int := WindowSeconds * 1000

  /** `getClientIP`: the first comma-separated entry of a non-empty
      x-forwarded-for header, trimmed; else a non-empty x-real-ip; else
      'unknown'. */
  function ClientIp(forwardedFor: Option<string>, realIp: Option<string>): (r: string)
    ensures forwardedFor.Some? && forwardedFor.value != [] ==>
              r == Trim(Split(forwardedFor.value, ',')[0]) && Lacks(r, ',')
    ensures (forwardedFor.None? || forwardedFor.value == []) && realIp.Some? && realIp.value != [] ==>
              r == realIp.value
    ensures (forwardedFor.None? || forwardedFor.value == []) && (realIp.None? || realIp.value == []) ==>
              r == "unknown"
  {
    if forwardedFor.Some? && forwardedFor.value != [] then
      var first := Split(forwardedFor.value, ',')[0];
      SplitPartsLackSep(forwardedFor.value, ',');
      TrimInside(first, ',');
      Trim(first)
    else if realIp.Some? && realIp.value != [] then realIp.value
    else "unknown"
  }

  /** Trimming only removes characters. */
  lemma TrimInside(s: string, c: char)
    requires Lacks(s, c)
    ensures Lacks(Trim(s), c)
  {
    TrimIsInnerPiece(s);
    var k :| 0 <= k <= |s| - |Trim(s)| && OccursAt(s, Trim(s), k);
    forall i | 0 <= i < |Trim(s)|
      ensures Trim(s)[i] != c
    {
      assert s[k + i] == Trim(s)[i];
    }
  }

  /** The key of an address in the store. */
  function KeyOf(ip: string): string
  {
    "ratelimit:" + ip
  }

  /** The start of the window holding `now`: `now` rounded down to a
      multiple of 60 000 ms. */
  function WindowStart(now: int): (ws: int)
    ensures ws % WindowMs == 0
    ensures ws <= now < ws + WindowMs
  {
    (now / WindowMs) * WindowMs
  }

  /** The stored counter of one address. */
  datatype RateWindow = RateWindow(count: int, resetTime: int)

  /** The counter after one more request at `now`: a counter from another
      window (or none) starts again from 0, and the request counts 1. */
  function Counted(store: map<string, RateWindow>, key: string, now: int): (w: RateWindow)
    ensures w.resetTime == WindowStart(now)
    ensures key in store && store[key].resetTime == WindowStart(now) ==> w.count == store[key].count + 1
    ensures !(key in store && store[key].resetTime == WindowStart(now)) ==> w.count == 1
  {
    var ws := WindowStart(now);
    var base := if key in store && store[key].resetTime == ws then store[key] else RateWindow(0, ws);
    base.(count := base.count + 1)
  }

  /** The store after a request from `ip` at `now`, before any sweep. */
  function Recorded(store: map<string, RateWindow>, ip: string, now: int): (r: map<string, RateWindow>)
    ensures r.Keys == store.Keys + {KeyOf(ip)}
    ensures r[KeyOf(ip)] == Counted(store, KeyOf(ip), now)
    ensures forall k :: k in store && k != KeyOf(ip) ==> r[k] == store[k]
  {
    store[KeyOf(ip) := Counted(store, KeyOf(ip), now)]
  }

  /** The store after the clean-up sweep: counters whose window started
      more than two windows before `now` are dropped. */
  function Swept(store: map<string, RateWindow>, now: int): (r: map<string, RateWindow>)
    ensures forall k :: k in r <==> k in store && store[k].resetTime >= now - 2 * WindowMs
    ensures forall k :: k in r ==> r[k] == store[k]
  {
    map k | k in store && store[k].resetTime >= now - 2 * WindowMs :: store[k]
  }

  /** The answer of the middleware: rejected with status 429, or passed on,
      with the X-RateLimit-Remaining and X-RateLimit-Reset header values. */
  datatype Verdict = Verdict(rejected: bool, remaining: int, reset: int)

  function VerdictFor(count: int, now: int): (v: Verdict)
    ensures v.rejected <==> count > Limit
    ensures v.remaining >= 0 && (count <= Limit ==> v.remaining == Limit - count)
    ensures v.rejected ==> v.remaining == 0
    ensures v.reset * 1000 == WindowStart(now) + WindowMs
  {
    var remaining := if Limit - count > 0 then Limit - count else 0;
    Verdict(count > Limit, remaining, (WindowStart(now) + WindowMs) / 1000)
  }

  /** Counts of `n` consecutive requests from one address at the given
      instants, starting from `store`. */
  function Replay(store: map<string, RateWindow>, ip: string, times: seq<int>): map<string, RateWindow>
    decreases |times|
  {
    if |times| == 0 then store
    else Replay(Recorded(store, ip, times[0]), ip, times[1..])
  }

  /** Within one window the counter of an address that had no counter for
      it counts the requests: after n of them it holds n, so the 61st and
      every later request in the window is rejected. */
  lemma {:induction false} ReplayCounts(store: map<string, RateWindow>, ip: string, times: seq<int>, ws: int, before: nat)
    requires forall i :: 0 <= i < |times| ==> WindowStart(times[i]) == ws
    requires before == 0 ==> KeyOf(ip) !in store || store[KeyOf(ip)].resetTime != ws
    requires before > 0 ==> KeyOf(ip) in store && store[KeyOf(ip)] == RateWindow(before, ws)
    ensures var r := Replay(store, ip, times);
            |times| + before > 0 ==> KeyOf(ip) in r && r[KeyOf(ip)] == RateWindow(|times| + before, ws)
    decreases |times|
  {
    if |times| > 0 {
      var next := Recorded(store, ip, times[0]);
      assert next[KeyOf(ip)] == RateWindow(before + 1, ws);
      ReplayCounts(next, ip, times[1..], ws, before + 1);
    }
  }

  /** Requests from one address never touch another address's counter. */
  lemma {:induction false} ReplayIsolated(store: map<string, RateWindow>, ip: string, times: seq<int>, other: string)
    requires other != KeyOf(ip)
    ensures other in Replay(store, ip, times) <==> other in store
    ensures other in store ==> Replay(store, ip, times)[other] == store[other]
    decreases |times|
  {
    if |times| > 0 {
      ReplayIsolated(Recorded(store, ip, times[0]), ip, times[1..], other);
    }
  }

  class RateLimiter {
    var store: map<string, RateWindow>

    constructor ()
      ensures store == map[]
    {
      store := map[];
    }

    /** The clean-up loop over the stored counters. */
    method Sweep(now: int)
      modifies this
      ensures store == Swept(old(store), now)
    {
      var cutoff := now - 2 * WindowMs;
      var keys := store.Keys;
      ghost var original := store;
      while keys != {}
        invariant keys <= original.Keys
        invariant forall k :: k in store <==>
                    k in original && (k in keys || original[k].resetTime >= cutoff)
        invariant forall k :: k in store ==> store[k] == original[k]
        decreases keys
      {
        var k :| k in keys;
        if store[k].resetTime < cutoff {
          store := store - {k};
        }
        keys := keys - {k};
      }
      assert store == Swept(original, now);
    }

    /** One request from `ip` at `now`: its counter is advanced, the sweep
        runs when `sweep` holds (the source's 1 % draw), and the request is
        rejected exactly when the counter exceeds the limit. */
    method Middleware(ip: string, now: int, sweep: bool) returns (v: Verdict)
      modifies this
      ensures !sweep ==> store == Recorded(old(store), ip, now)
      ensures sweep ==> store == Swept(Recorded(old(store), ip, now), now)
      ensures KeyOf(ip) in store && store[KeyOf(ip)] == Counted(old(store), KeyOf(ip), now)
      ensures v == VerdictFor(Counted(old(store), KeyOf(ip), now).count, now)
    {
      var key := KeyOf(ip);
      var windowStart := WindowStart(now);
      var data := RateWindow(0, windowStart);
      if key in store && store[key].resetTime == windowStart {
        data := store[key];
      }
      data := data.(count := data.count + 1);
      store := store[key := data];
      if sweep {
        Sweep(now);
      }
      var remaining := if Limit - data.count > 0 then Limit - data.count else 0;
      v := Verdict(data.count > Limit, remaining, (windowStart + WindowMs) / 1000);
    }
  }
}
