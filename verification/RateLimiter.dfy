/** The per-process sliding-window rate limiter. */
module RateLimiter {
  import opened Wrappers

  type Bucket = (string, string)

  datatype Verdict = Verdict(allowed: bool, remaining: int, resetAt: real)

  datatype Error = EmptyDeque

  /** Hits strictly older than the cutoff leave from the front. */
  function Pruned(hits: seq<real>, cutoff: real): (r: seq<real>)
    ensures |r| <= |hits| && (r != [] ==> r[0] >= cutoff)
  {
    if hits != [] && hits[0] < cutoff then Pruned(hits[1..], cutoff) else hits
  }

  lemma {:induction false} PrunedIsSuffix(hits: seq<real>, cutoff: real)
    ensures var n := |hits| - |Pruned(hits, cutoff)|;
            Pruned(hits, cutoff) == hits[n..] && forall i :: 0 <= i < n ==> hits[i] < cutoff
  {
    if hits != [] && hits[0] < cutoff {
      PrunedIsSuffix(hits[1..], cutoff);
      assert forall i :: 0 < i < |hits| ==> hits[i] == hits[1..][i - 1];
    }
  }

  function HitsOf(hits: map<Bucket, seq<real>>, b: Bucket): seq<real> { if b in hits then hits[b] else [] }

  /** One call on one bucket. A full bucket reads its oldest hit to say when it resets, which
      raises when the bucket is full and empty at once. */
  function Called(hits: seq<real>, limit: int, window: real, now: real): Result<(Verdict, seq<real>), Error> {
    var kept := Pruned(hits, now - window);
    if |kept| >= limit then
      if kept == [] then Failure(EmptyDeque) else Success((Verdict(false, 0, kept[0] + window), kept))
    else
      var more := kept + [now];
      Success((Verdict(true, limit - |more|, more[0] + window), more))
  }

  class InMemorySlidingWindowRateLimiter {
    var hits: map<Bucket, seq<real>>

    constructor ()
      ensures hits == map[]
    {
      hits := map[];
    }

    method IsAllowed(key: string, route: string, limit: int, window: real, now: real)
        returns (r: Result<Verdict, Error>)
      modifies this
      ensures match Called(HitsOf(old(hits), (key, route)), limit, window, now)
              case Success((verdict, after)) => r == Success(verdict) && hits == old(hits)[(key, route) := after]
              case Failure(e) => r == Failure(e) && hits == old(hits)[(key, route) := []]
    {
      var b := (key, route);
      if b !in hits { hits := hits[b := []]; }
      var cutoff := now - window;
      var deque := hits[b];
      ghost var before := deque;
      while deque != [] && deque[0] < cutoff
        invariant Pruned(deque, cutoff) == Pruned(before, cutoff)
        decreases |deque|
      {
        deque := deque[1..];
      }
      assert deque == Pruned(before, cutoff);
      hits := hits[b := deque];
      if |deque| >= limit {
        if deque == [] { return Failure(EmptyDeque); }
        return Success(Verdict(false, 0, deque[0] + window));
      }
      deque := deque + [now];
      hits := hits[b := deque];
      return Success(Verdict(true, limit - |deque|, deque[0] + window));
    }
  }

  // ---------------------------------------------------------------- whole runs

  /** Every bucket has one limit and one window. */
  datatype Policy = Policy(limit: Bucket -> int, window: Bucket -> real)

  ghost predicate Positive(p: Policy) { forall b :: p.limit(b) >= 1 && p.window(b) >= 0.0 }

  datatype Call = Call(bucket: Bucket, now: real)

  predicate Monotone(calls: seq<Call>) {
    forall i, j :: 0 <= i < j < |calls| ==> calls[i].now <= calls[j].now
  }

  /** One bucket: the hits it holds, and every time at which it allowed a call. */
  datatype Window = Window(hits: seq<real>, allowed: seq<real>)

  function After(limit: int, window: real, w: Window, now: real): Window {
    match Called(w.hits, limit, window, now)
    case Success((v, hits)) => Window(hits, if v.allowed then w.allowed + [now] else w.allowed)
    case Failure(_) => Window([], w.allowed)
  }

  /** The state of one bucket after a run; calls on other buckets do not reach it. */
  function Run(p: Policy, b: Bucket, calls: seq<Call>): Window {
    if calls == [] then Window([], [])
    else
      var w, last := Run(p, b, calls[..|calls| - 1]), calls[|calls| - 1];
      if last.bucket == b then After(p.limit(b), p.window(b), w, last.now) else w
  }

  function Answer(p: Policy, b: Bucket, calls: seq<Call>, now: real): Result<(Verdict, seq<real>), Error> {
    Called(Run(p, b, calls).hits, p.limit(b), p.window(b), now)
  }

  /** A call raises exactly when the limit is not positive and no hit is left to read. */
  lemma RaisesExactly(hits: seq<real>, limit: int, window: real, now: real)
    ensures Called(hits, limit, window, now).Failure? <==> limit <= 0 && Pruned(hits, now - window) == []
  {
  }

  /** Over runs, a bucket without a positive limit never allows anything and never records
      a hit. */
  lemma {:induction false} ClosedBucket(p: Policy, b: Bucket, calls: seq<Call>)
    requires p.limit(b) <= 0
    ensures Run(p, b, calls) == Window([], [])
  {
    if calls != [] { ClosedBucket(p, b, calls[..|calls| - 1]); }
  }

  /** So, whatever came before and whatever the clock, the next call on a bucket raises if
      and only if its limit is not positive. */
  lemma BucketRaisesExactly(p: Policy, b: Bucket, calls: seq<Call>, now: real)
    ensures Answer(p, b, calls, now).Failure? <==> p.limit(b) <= 0
  {
    RaisesExactly(Run(p, b, calls).hits, p.limit(b), p.window(b), now);
    if p.limit(b) <= 0 { ClosedBucket(p, b, calls); }
  }

  predicate Sorted(s: seq<real>) { forall i, j :: 0 <= i < j < |s| ==> s[i] <= s[j] }

  /** Any `limit` + 1 consecutive allowances span more than the window. */
  predicate Spaced(allowed: seq<real>, limit: nat, window: real) {
    forall i :: 0 <= i && i + limit < |allowed| ==> allowed[i + limit] - allowed[i] > window
  }

  /** The allowance that is the window's first hit. */
  function Start(w: Window): int { |w.allowed| - |w.hits| }

  predicate LatestHits(w: Window) {
    |w.hits| <= |w.allowed| && forall i :: 0 <= i < |w.hits| ==> w.hits[i] == w.allowed[Start(w) + i]
  }

  predicate Expired(w: Window, cutoff: real)
    requires LatestHits(w)
  {
    forall i :: 0 <= i < Start(w) ==> w.allowed[i] < cutoff
  }

  /** The hits are the latest allowances, at most `limit` of them; those that left are out
      of every window from now on. */
  predicate Inv(w: Window, limit: nat, window: real, now: real) {
    && LatestHits(w) && |w.hits| <= limit && Expired(w, now - window)
    && AllowedOk(w.allowed, limit, window, now)
  }

  predicate AllowedOk(allowed: seq<real>, limit: nat, window: real, now: real) {
    && (forall i :: 0 <= i < |allowed| ==> allowed[i] <= now)
    && Sorted(allowed) && Spaced(allowed, limit, window)
  }

  lemma LaterInv(w: Window, limit: nat, window: real, now: real, later: real)
    requires Inv(w, limit, window, now) && now <= later
    ensures Inv(w, limit, window, later)
  {
  }

  lemma DropLatest(w: Window, gone: nat)
    requires LatestHits(w) && gone <= |w.hits|
    ensures LatestHits(w.(hits := w.hits[gone..]))
  {
    var w' := w.(hits := w.hits[gone..]);
    forall i | 0 <= i < |w'.hits|
      ensures w'.hits[i] == w.allowed[Start(w') + i]
    {
      var k := gone + i;
      assert w.hits[k] == w.allowed[Start(w) + k];
    }
  }

  lemma DropExpired(w: Window, gone: nat, cutoff: real)
    requires LatestHits(w) && Expired(w, cutoff) && gone <= |w.hits|
    requires forall i :: 0 <= i < gone ==> w.hits[i] < cutoff
    ensures LatestHits(w.(hits := w.hits[gone..])) && Expired(w.(hits := w.hits[gone..]), cutoff)
  {
    DropLatest(w, gone);
    forall i | 0 <= i < Start(w) + gone
      ensures w.allowed[i] < cutoff
    {
      if i >= Start(w) {
        var k := i - Start(w);
        assert w.hits[k] == w.allowed[Start(w) + k];
      }
    }
  }

  lemma PrunedInv(w: Window, limit: nat, window: real, now: real)
    requires Inv(w, limit, window, now)
    ensures Inv(w.(hits := Pruned(w.hits, now - window)), limit, window, now)
  {
    var cutoff := now - window;
    PrunedIsSuffix(w.hits, cutoff);
    var gone := |w.hits| - |Pruned(w.hits, cutoff)|;
    DropExpired(w, gone, cutoff);
    assert Pruned(w.hits, cutoff) == w.hits[gone..];
  }

  lemma AllowInv(w: Window, limit: nat, window: real, now: real)
    requires Inv(w, limit, window, now) && |w.hits| < limit
    ensures Inv(Window(w.hits + [now], w.allowed + [now]), limit, window, now)
  {
    var n := |w.allowed|;
    if n >= limit { assert w.allowed[n - limit] < now - window; }
  }

  lemma AfterInv(w: Window, limit: nat, window: real, now: real)
    requires limit >= 1 && Inv(w, limit, window, now)
    ensures Inv(After(limit, window, w, now), limit, window, now)
  {
    PrunedInv(w, limit, window, now);
    var kept := w.(hits := Pruned(w.hits, now - window));
    if |kept.hits| < limit { AllowInv(kept, limit, window, now); }
  }

  /** No call of the run is later than `now`. */
  predicate UpTo(calls: seq<Call>, now: real) { forall i :: 0 <= i < |calls| ==> calls[i].now <= now }

  lemma EarlierCalls(calls: seq<Call>)
    requires Monotone(calls) && calls != []
    ensures Monotone(calls[..|calls| - 1]) && UpTo(calls[..|calls| - 1], calls[|calls| - 1].now)
  {
  }

  lemma {:induction false} RunInv(p: Policy, b: Bucket, calls: seq<Call>, now: real)
    requires Positive(p) && Monotone(calls) && UpTo(calls, now)
    ensures Inv(Run(p, b, calls), p.limit(b), p.window(b), now)
  {
    if calls != [] {
      var most, last := calls[..|calls| - 1], calls[|calls| - 1];
      EarlierCalls(calls);
      RunInv(p, b, most, last.now);
      if last.bucket == b { AfterInv(Run(p, b, most), p.limit(b), p.window(b), last.now); }
      LaterInv(Run(p, b, calls), p.limit(b), p.window(b), last.now, now);
    }
  }

  function Within(s: seq<real>, low: real, high: real): nat {
    if s == [] then 0 else (if low <= s[0] <= high then 1 else 0) + Within(s[1..], low, high)
  }

  lemma {:induction false} NoneWithin(s: seq<real>, low: real, high: real)
    requires Sorted(s) && (s != [] ==> s[0] > high)
    ensures Within(s, low, high) == 0
  {
    if s != [] { NoneWithin(s[1..], low, high); }
  }

  lemma {:induction false} CountedWithin(s: seq<real>, low: real, high: real, limit: nat)
    requires Sorted(s) && (|s| > limit ==> s[limit] > high)
    ensures Within(s, low, high) <= limit
  {
    if s != [] {
      if limit == 0 { NoneWithin(s, low, high); } else { CountedWithin(s[1..], low, high, limit - 1); }
    }
  }

  lemma SpacedTail(s: seq<real>, limit: nat, window: real)
    requires s != [] && Spaced(s, limit, window)
    ensures Spaced(s[1..], limit, window)
  {
    var rest := s[1..];
    forall i | 0 <= i && i + limit < |rest|
      ensures rest[i + limit] - rest[i] > window
    {
      assert s[(i + 1) + limit] - s[i + 1] > window;
    }
  }

  lemma {:induction false} SpacedWithin(s: seq<real>, limit: nat, window: real, low: real)
    requires Sorted(s) && Spaced(s, limit, window)
    ensures Within(s, low, low + window) <= limit
  {
    if s != [] {
      if s[0] >= low {
        if limit < |s| { assert s[0 + limit] - s[0] > window; }
        CountedWithin(s, low, low + window, limit);
      } else {
        SpacedTail(s, limit, window);
        SpacedWithin(s[1..], limit, window, low);
      }
    }
  }

  /** Over whole runs with a monotone clock, every closed interval of window length holds
      at most `limit` allowed calls of a bucket. */
  lemma AtMostLimitInAnyWindow(p: Policy, b: Bucket, calls: seq<Call>, low: real)
    requires Positive(p) && Monotone(calls)
    ensures Within(Run(p, b, calls).allowed, low, low + p.window(b)) <= p.limit(b)
  {
    if calls != [] {
      RunInv(p, b, calls, calls[|calls| - 1].now);
      SpacedWithin(Run(p, b, calls).allowed, p.limit(b), p.window(b), low);
    }
  }

  /** The latest `limit` allowances of a bucket all lie in the window that ends at `now`. */
  predicate Full(allowed: seq<real>, limit: nat, window: real, now: real) {
    |allowed| >= limit && forall i :: |allowed| - limit <= i < |allowed| ==> now - window <= allowed[i] <= now
  }

  lemma RefusedIsFull(w: Window, limit: nat, window: real, now: real)
    requires limit >= 1 && Inv(w, limit, window, now) && |Pruned(w.hits, now - window)| >= limit
    ensures Full(w.allowed, limit, window, now) && Pruned(w.hits, now - window)[0] == w.allowed[|w.allowed| - limit]
  {
    PrunedInv(w, limit, window, now);
    var kept := Pruned(w.hits, now - window);
    var m := |w.allowed| - |kept|;
    assert |kept| == limit;
    assert w.allowed[m] == kept[0] >= now - window;
  }

  /** With a positive limit a call always gets an answer, and it is the count of unexpired
      hits that decides it. */
  lemma CalledAnswers(hits: seq<real>, limit: nat, window: real, now: real)
    requires limit >= 1
    ensures Called(hits, limit, window, now).Success?
    ensures Called(hits, limit, window, now).value.0.allowed <==> |Pruned(hits, now - window)| < limit
    ensures |Pruned(hits, now - window)| >= limit ==>
      Called(hits, limit, window, now).value.0.resetAt == Pruned(hits, now - window)[0] + window
  {
  }

  /** A call is refused only when `limit` allowed calls lie in the window that ends now. */
  lemma RefusedOnlyWhenFull(p: Policy, b: Bucket, calls: seq<Call>, now: real)
    requires Positive(p) && Monotone(calls) && UpTo(calls, now)
    ensures Answer(p, b, calls, now).Success?
    ensures !Answer(p, b, calls, now).value.0.allowed ==> Full(Run(p, b, calls).allowed, p.limit(b), p.window(b), now)
  {
    var w := Run(p, b, calls);
    CalledAnswers(w.hits, p.limit(b), p.window(b), now);
    if |Pruned(w.hits, now - p.window(b))| >= p.limit(b) {
      RunInv(p, b, calls, now);
      RefusedIsFull(w, p.limit(b), p.window(b), now);
    }
  }

  /** A call strictly after the reset time of a refusal is allowed, if nothing was allowed
      on the bucket in between: `more` is the run up to that later call. */
  lemma ResetTimeIsHonest(p: Policy, b: Bucket, calls: seq<Call>, now: real, more: seq<Call>, later: real)
    requires Positive(p) && Monotone(calls) && UpTo(calls, now) && Monotone(more) && UpTo(more, later)
    requires Answer(p, b, calls, now).Success? && !Answer(p, b, calls, now).value.0.allowed
    requires Run(p, b, more).allowed == Run(p, b, calls).allowed
    requires later > Answer(p, b, calls, now).value.0.resetAt
    ensures Answer(p, b, more, later).Success? && Answer(p, b, more, later).value.0.allowed
  {
    var limit, window, allowed := p.limit(b), p.window(b), Run(p, b, calls).allowed;
    CalledAnswers(Run(p, b, calls).hits, limit, window, now);
    RefusedAllowance(p, b, calls, now);
    assert allowed[|allowed| - limit] + window < later;
    RefusedOnlyWhenFull(p, b, more, later);
    NotFull(allowed, limit, window, later);
  }

  lemma RefusedAllowance(p: Policy, b: Bucket, calls: seq<Call>, now: real)
    requires Positive(p) && Monotone(calls) && UpTo(calls, now)
    requires |Pruned(Run(p, b, calls).hits, now - p.window(b))| >= p.limit(b)
    ensures p.limit(b) <= |Run(p, b, calls).allowed|
    ensures Pruned(Run(p, b, calls).hits, now - p.window(b))[0] ==
            Run(p, b, calls).allowed[|Run(p, b, calls).allowed| - p.limit(b)]
  {
    RunInv(p, b, calls, now);
    RefusedIsFull(Run(p, b, calls), p.limit(b), p.window(b), now);
  }

  lemma NotFull(allowed: seq<real>, limit: nat, window: real, later: real)
    requires 1 <= limit <= |allowed| && allowed[|allowed| - limit] + window < later
    ensures !Full(allowed, limit, window, later)
  {
  }
}
