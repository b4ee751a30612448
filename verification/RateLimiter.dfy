/** The sliding-window request limiter (internal/server/ratelimit.go): per key, the times of
    recently accepted requests, filtered on use and swept in the background. */
module RateLimiter {
  type Requests = map<string, seq<int>>

  function TimesOf(r: Requests, key: string): seq<int> { if key in r then r[key] else [] }

  /** The times later than `cutoff`, in order. */
  function Newer(times: seq<int>, cutoff: int): seq<int> {
    if times == [] then []
    else Newer(times[..|times| - 1], cutoff) + if times[|times| - 1] > cutoff then [times[|times| - 1]] else []
  }

  /** Exactly the requests after the cutoff count, each as often as it was made and in order. */
  lemma {:induction false} NewerAreThoseAfter(times: seq<int>, cutoff: int, x: int)
    ensures multiset(Newer(times, cutoff))[x] == if x > cutoff then multiset(times)[x] else 0
  {
    if times != [] {
      var n := |times| - 1;
      NewerAreThoseAfter(times[..n], cutoff, x);
      assert times == times[..n] + [times[n]];
      assert multiset(times)[x] == multiset(times[..n])[x] + if times[n] == x then 1 else 0;
    }
  }

  lemma {:induction false} RecentOnesAllCount(times: seq<int>, cutoff: int)
    requires forall x :: x in times ==> x > cutoff
    ensures Newer(times, cutoff) == times
  {
    if times != [] {
      var n := |times| - 1;
      assert times == times[..n] + [times[n]] && forall x :: x in times[..n] ==> x in times;
      assert times[n] in times;
      RecentOnesAllCount(times[..n], cutoff);
    }
  }

  function Swept(r: Requests, cutoff: int): Requests {
    map k | k in r && Newer(r[k], cutoff) != [] :: Newer(r[k], cutoff)
  }

  class RateLimiter {
    var requests: Requests
    const limit: int
    const window: int

    constructor (limit: int, window: int)
      ensures requests == map[] && this.limit == limit && this.window == window
    {
      requests := map[];
      this.limit, this.window := limit, window;
    }

    method Allow(key: string, now: int) returns (ok: bool)
      modifies this
      ensures ok <==> |Newer(TimesOf(old(requests), key), now - window)| < limit
      ensures requests == old(requests)[key := Newer(TimesOf(old(requests), key), now - window) + if ok then [now] else []]
    {
      var recent := Recent(if key in requests then requests[key] else [], now - window);
      if |recent| >= limit {
        requests := requests[key := recent];
        assert recent + [] == recent;
        return false;
      }
      requests := requests[key := recent + [now]];
      return true;
    }

    /** One pass of the background goroutine. */
    method Sweep(now: int)
      modifies this
      ensures requests == Swept(old(requests), now - window)
    {
      ghost var swept := Swept(requests, now - window);
      var todo := requests.Keys;
      while todo != {}
        invariant todo <= old(requests).Keys
        invariant forall k :: k in todo ==> k in requests && requests[k] == old(requests)[k]
        invariant forall k :: k !in todo ==> (k in requests <==> k in swept)
        invariant forall k :: k in requests && k !in todo ==> requests[k] == swept[k]
      {
        var key :| key in todo;
        var valid := Recent(requests[key], now - window);
        if |valid| == 0 {
          requests := requests - {key};
        } else {
          requests := requests[key := valid];
        }
        todo := todo - {key};
      }
    }
  }

  method Recent(times: seq<int>, cutoff: int) returns (recent: seq<int>)
    ensures recent == Newer(times, cutoff)
  {
    recent := [];
    for i := 0 to |times|
      invariant recent == Newer(times[..i], cutoff)
    {
      assert times[..i + 1][..i] == times[..i];
      if times[i] > cutoff {
        recent := recent + [times[i]];
      }
    }
    assert times[..|times|] == times;
  }

  // The limiter against the plain history of accepted requests.

  datatype Call = Allow(key: string, at: int) | Sweep(at: int)

  function Decide(r: Requests, key: string, now: int, limit: int, window: int): bool {
    |Newer(TimesOf(r, key), now - window)| < limit
  }

  function Apply(r: Requests, c: Call, limit: int, window: int): Requests {
    match c
    case Allow(key, now) =>
      r[key := Newer(TimesOf(r, key), now - window) + if Decide(r, key, now, limit, window) then [now] else []]
    case Sweep(now) => Swept(r, now - window)
  }

  function After(calls: seq<Call>, limit: int, window: int): Requests {
    if calls == [] then map[] else Apply(After(calls[..|calls| - 1], limit, window), calls[|calls| - 1], limit, window)
  }

  /** Every accepted request of `key`, by the rule alone: accept when fewer than `limit` accepted
      requests of that key lie in (now - window, now]. Nothing is ever dropped. */
  function Accepted(calls: seq<Call>, key: string, limit: int, window: int): seq<int> {
    if calls == [] then [] else
    Extended(Accepted(calls[..|calls| - 1], key, limit, window), calls[|calls| - 1], key, limit, window)
  }

  predicate InTime(calls: seq<Call>, now: int) {
    && (forall i :: 0 <= i < |calls| ==> calls[i].at <= now)
    && (forall i, j :: 0 <= i < j < |calls| ==> calls[i].at <= calls[j].at)
  }

  lemma {:induction false} NewerTwice(times: seq<int>, c: int, c': int)
    requires c <= c'
    ensures Newer(Newer(times, c), c') == Newer(times, c')
  {
    if times != [] {
      var n := |times| - 1;
      var older := Newer(times[..n], c);
      NewerTwice(times[..n], c, c');
      if times[n] > c {
        assert Newer(times, c) == older + [times[n]];
        NewerAppend(older, times[n], c');
      } else {
        assert Newer(times, c) == older && Newer(times, c') == Newer(times[..n], c');
      }
    }
  }

  lemma NewerAppend(times: seq<int>, t: int, c: int)
    ensures Newer(times + [t], c) == Newer(times, c) + if t > c then [t] else []
  {
  }

  /** The limiter has forgotten only what no later decision can depend on. */
  ghost predicate Agrees(r: Requests, key: string, h: seq<int>, cutoff: int) {
    Newer(TimesOf(r, key), cutoff) == Newer(h, cutoff)
  }

  lemma AgreesLater(r: Requests, key: string, h: seq<int>, c: int, c': int)
    requires Agrees(r, key, h, c) && c <= c'
    ensures Agrees(r, key, h, c')
  {
    hide Newer;
    NewerTwice(TimesOf(r, key), c, c');
    NewerTwice(h, c, c');
  }

  /** The history after one more call. */
  function Extended(h: seq<int>, c: Call, key: string, limit: int, window: int): seq<int> {
    if c.Allow? && c.key == key && |Newer(h, c.at - window)| < limit then h + [c.at] else h
  }

  lemma AllowAgrees(times: seq<int>, h: seq<int>, now: int, cutoff: int, limit: int)
    requires Newer(times, cutoff) == Newer(h, cutoff)
    ensures var kept := Newer(times, cutoff);
            Newer(kept + if |kept| < limit then [now] else [], cutoff)
            == Newer(if |Newer(h, cutoff)| < limit then h + [now] else h, cutoff)
  {
    var kept := Newer(times, cutoff);
    NewerTwice(times, cutoff, cutoff);
    if |kept| < limit {
      NewerAppend(kept, now, cutoff);
      NewerAppend(h, now, cutoff);
    } else {
      assert kept + [] == kept;
    }
  }

  lemma SweepAgrees(r: Requests, key: string, cutoff: int)
    ensures Newer(TimesOf(Swept(r, cutoff), key), cutoff) == Newer(TimesOf(r, key), cutoff)
  {
    NewerTwice(TimesOf(r, key), cutoff, cutoff);
  }

  lemma CallAgrees(r: Requests, key: string, h: seq<int>, c: Call, limit: int, window: int)
    requires Agrees(r, key, h, c.at - window)
    ensures Agrees(Apply(r, c, limit, window), key, Extended(h, c, key, limit, window), c.at - window)
  {
    hide Newer;
    match c
    case Allow(k, now) => if k == key { AllowAgrees(TimesOf(r, key), h, now, now - window, limit); }
    case Sweep(now) => SweepAgrees(r, key, now - window);
  }

  lemma CallAgreesLater(r: Requests, key: string, h: seq<int>, c: Call, limit: int, window: int, now: int)
    requires Agrees(r, key, h, c.at - window) && c.at <= now
    ensures Agrees(Apply(r, c, limit, window), key, Extended(h, c, key, limit, window), now - window)
  {
    hide *;
    CallAgrees(r, key, h, c, limit, window);
    AgreesLater(Apply(r, c, limit, window), key, Extended(h, c, key, limit, window), c.at - window, now - window);
  }

  lemma {:induction false} RunAgrees(calls: seq<Call>, key: string, limit: int, window: int, now: int)
    requires InTime(calls, now)
    ensures Agrees(After(calls, limit, window), key, Accepted(calls, key, limit, window), now - window)
  {
    hide Newer, Apply, Extended;
    if calls != [] {
      var init, c := calls[..|calls| - 1], calls[|calls| - 1];
      RunAgrees(init, key, limit, window, c.at);
      CallAgreesLater(After(init, limit, window), key, Accepted(init, key, limit, window), c, limit, window, now);
    }
  }

  /** For every interleaving with the sweep and with other keys, a request is allowed exactly when
      fewer than `limit` accepted requests of its key lie in (now - window, now]. */
  lemma {:induction false} AllowCountsTheWindow(calls: seq<Call>, key: string, now: int, limit: int, window: int)
    requires InTime(calls, now)
    ensures Decide(After(calls, limit, window), key, now, limit, window)
            <==> |Newer(Accepted(calls, key, limit, window), now - window)| < limit
  {
    RunAgrees(calls, key, limit, window, now);
  }

  /** How many of the times fall in [from, to). */
  function Within(times: seq<int>, from: int, to: int): nat {
    if times == [] then 0
    else Within(times[..|times| - 1], from, to) + if from <= times[|times| - 1] < to then 1 else 0
  }

  lemma {:induction false} WithinIsNewer(times: seq<int>, from: int, to: int, cutoff: int)
    requires cutoff < from
    ensures Within(times, from, to) <= |Newer(times, cutoff)|
  {
    if times != [] {
      WithinIsNewer(times[..|times| - 1], from, to, cutoff);
    }
  }

  /** No half-open span of one window ever holds more than `limit` accepted requests of a key. */
  lemma {:induction false} NeverMoreThanLimit(calls: seq<Call>, key: string, limit: int, window: int, from: int)
    requires limit >= 0
    ensures Within(Accepted(calls, key, limit, window), from, from + window) <= limit
  {
    if calls != [] {
      var n := |calls| - 1;
      NeverMoreThanLimit(calls[..n], key, limit, window, from);
      var h := Accepted(calls[..n], key, limit, window);
      var t := calls[n].at;
      if Accepted(calls, key, limit, window) != h {
        assert (h + [t])[..|h|] == h;
        if from <= t < from + window {
          WithinIsNewer(h, from, from + window, t - window);
        }
      }
    }
  }
}
