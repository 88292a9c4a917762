/** The bounded retry loop of the chat client. Wall-clock time is a real number that only
    provider calls and backoff sleeps advance. */
module Retries {
  import opened Wrappers

  type Duration = d: real | d >= 0.0

  datatype Error = Error(transient: bool, name: string)

  datatype Failure = BadAttempts | DeadlineBeforeCall | Provider(e: Error)

  /** What one provider call does: how long it takes, and its reply or exception. */
  datatype Reply<+R> = Reply(elapsed: Duration, result: Result<R, Error>)

  type ProviderCall<R> = (nat, Option<real>) -> Reply<R>

  /** One call as it happened: when it started and the timeout it was given. */
  datatype Call<+R> = Call(at: real, timeout: Option<real>, reply: Reply<R>)

  const BACKOFF: real := 2.0

  function Min(a: real, b: real): real { if a <= b then a else b }

  function EndOf<R>(c: Call<R>): real { c.at + c.reply.elapsed }

  predicate Transient<R>(c: Call<R>) { c.reply.result.Failure? && c.reply.result.error.transient }

  /** The provider gives up, at the latest, when the timeout it was passed runs out. */
  ghost predicate Honours<R(!new)>(provider: ProviderCall<R>) {
    forall i: nat, t: real :: t > 0.0 ==> provider(i, Some(t)).elapsed <= t
  }

  /** The timeout of a call is the configured one, cut to what is left of the total. */
  function TimeoutAt(timeout: Option<real>, deadline: Option<real>, now: real): Option<real> {
    if timeout.Some? && deadline.Some? then Some(Min(timeout.value, deadline.value - now)) else timeout
  }

  /** The pause after failed attempt number `attempt`, counted from one. */
  function Pause(attempt: nat, deadline: Option<real>, now: real): real {
    var backoff := BACKOFF * attempt as real;
    if deadline.Some? then Min(backoff, deadline.value - now) else backoff
  }

  /** A call number `i` is made strictly before the deadline with the timeout due then. */
  predicate CallDue<R(==)>(
      provider: ProviderCall<R>, timeout: Option<real>, deadline: Option<real>, c: Call<R>, i: nat)
  {
    && (deadline.Some? ==> c.at < deadline.value)
    && c.timeout == TimeoutAt(timeout, deadline, c.at)
    && c.reply == provider(i, c.timeout)
  }

  /** Call `next` retries call `c`, number `i`, after its transient failure and its pause. */
  predicate Retried<R>(deadline: Option<real>, c: Call<R>, next: Call<R>, i: nat) {
    Transient(c) && next.at == EndOf(c) + Pause(i + 1, deadline, EndOf(c))
  }

  predicate Schedule<R(==)>(
      provider: ProviderCall<R>, timeout: Option<real>, deadline: Option<real>, start: real, calls: seq<Call<R>>)
  {
    && (calls != [] ==> calls[0].at == start)
    && (forall i :: 0 <= i < |calls| ==> CallDue(provider, timeout, deadline, calls[i], i))
    && (forall i :: 0 <= i < |calls| - 1 ==> Retried(deadline, calls[i], calls[i + 1], i))
  }

  lemma ScheduleGrows<R>(
      provider: ProviderCall<R>, timeout: Option<real>, deadline: Option<real>, start: real, calls: seq<Call<R>>,
      c: Call<R>)
    requires Schedule(provider, timeout, deadline, start, calls)
    requires CallDue(provider, timeout, deadline, c, |calls|)
    requires if calls == [] then c.at == start else Retried(deadline, calls[|calls| - 1], c, |calls| - 1)
    ensures Schedule(provider, timeout, deadline, start, calls + [c])
  {
  }

  /** What the loop reports, read off the calls it made. */
  function Report<R>(maxAttempts: int, calls: seq<Call<R>>): Result<R, Failure> {
    if maxAttempts < 1 then Failure(BadAttempts)
    else if calls == [] then Failure(DeadlineBeforeCall)
    else
      match calls[|calls| - 1].reply.result
      case Success(r) => Success(r)
      case Failure(e) => Failure(Provider(e))
  }

  /** At most `maxAttempts` calls; a success or a permanent error ends the loop at once; a
      transient error is reported only when the attempts or the total time are used up; and
      when the provider honours its timeouts, the whole loop ends by the deadline. */
  method CreateWithRetries<R(==)>(
      provider: ProviderCall<R>, maxAttempts: int, timeout: Option<real>, total: Option<real>, start: real)
      returns (result: Result<R, Failure>, calls: seq<Call<R>>, end: real)
    ensures var deadline := if total.Some? then Some(start + total.value) else None;
      && Schedule(provider, timeout, deadline, start, calls)
      && result == Report(maxAttempts, calls)
      && (maxAttempts < 1 ==> calls == []) && (maxAttempts >= 1 ==> |calls| <= maxAttempts)
      && (maxAttempts >= 1 ==> (calls == [] <==> total.Some? && total.value <= 0.0))
      && (calls != [] && Transient(calls[|calls| - 1]) ==>
            |calls| == maxAttempts || (deadline.Some? && end >= deadline.value))
      && (calls != [] ==> EndOf(calls[|calls| - 1]) <= end)
      && (calls == [] ==> end == start)
      && (calls != [] && deadline.Some? && EndOf(calls[|calls| - 1]) <= deadline.value ==> end <= deadline.value)
  {
    if maxAttempts < 1 { return Failure(BadAttempts), [], start; }
    var deadline := if total.Some? then Some(start + total.value) else None;
    var now, passed := start, timeout;
    var lastError: Option<Error> := None;
    var attempt := 1;
    calls := [];
    while attempt <= maxAttempts
      invariant 1 <= attempt && |calls| == attempt - 1 <= maxAttempts
      invariant Schedule(provider, timeout, deadline, start, calls)
      invariant Waiting(timeout, deadline, start, maxAttempts, calls, now, passed, lastError)
    {
      if deadline.Some? {
        var remaining := deadline.value - now;
        if remaining <= 0.0 {
          result := Failure(if lastError.Some? then Provider(lastError.value) else DeadlineBeforeCall);
          return result, calls, now;
        }
        if passed.Some? { passed := Some(Min(passed.value, remaining)); }
      }
      var reply := provider(attempt - 1, passed);
      ghost var before := calls;
      ScheduleGrows(provider, timeout, deadline, start, calls, Call(now, passed, reply));
      calls := calls + [Call(now, passed, reply)];
      now := now + reply.elapsed;
      match reply.result {
        case Success(r) => return Success(r), calls, now;
        case Failure(e) =>
          lastError := Some(e);
          if !e.transient { return Failure(Provider(e)), calls, now; }
          if attempt < maxAttempts {
            var backoff := BACKOFF * attempt as real;
            if deadline.Some? {
              var remaining := deadline.value - now;
              if remaining <= 0.0 { return Failure(Provider(e)), calls, now; }
              backoff := Min(backoff, remaining);
            }
            now := now + backoff;
          }
      }
      attempt := attempt + 1;
    }
    return Failure(Provider(lastError.value)), calls, now;
  }

  /** Between two attempts: the last error is the last call's, and the clock has moved on
      by exactly the pause that call earned. */
  predicate Waiting<R>(
      timeout: Option<real>, deadline: Option<real>, start: real, maxAttempts: int, calls: seq<Call<R>>,
      now: real, passed: Option<real>, lastError: Option<Error>)
  {
    if calls == [] then now == start && passed == timeout && lastError.None? && maxAttempts >= 1
    else
      var c := calls[|calls| - 1];
      && Transient(c) && lastError == Some(c.reply.result.error)
      && passed == TimeoutAt(timeout, deadline, c.at)
      && now == EndOf(c) + (if |calls| < maxAttempts then Pause(|calls|, deadline, EndOf(c)) else 0.0)
      && EndOf(c) <= now
  }

  /** Under a total timeout, a provider that honours its timeouts never ends a call late,
      whatever the attempt and however much the earlier ones and their pauses used up. */
  lemma CallsEndInTime<R(!new)>(
      provider: ProviderCall<R>, timeout: real, deadline: real, start: real, calls: seq<Call<R>>, i: nat)
    requires Schedule(provider, Some(timeout), Some(deadline), start, calls) && i < |calls|
    requires timeout > 0.0 && Honours(provider)
    ensures calls[i].at < deadline && EndOf(calls[i]) <= deadline && calls[i].reply.elapsed <= timeout
  {
    assert CallDue(provider, Some(timeout), Some(deadline), calls[i], i);
    assert calls[i].timeout == Some(Min(timeout, deadline - calls[i].at));
    assert provider(i, calls[i].timeout).elapsed <= calls[i].timeout.value;
  }

  /** Retries never overlap, and a transient failure is retried after exactly its backoff:
      a pause that the deadline cuts short is never followed by another call. */
  lemma {:induction false} CallsAreOrdered<R>(
      provider: ProviderCall<R>, timeout: Option<real>, deadline: Option<real>, start: real, calls: seq<Call<R>>,
      i: nat, j: nat)
    requires Schedule(provider, timeout, deadline, start, calls) && i < j < |calls|
    ensures Transient(calls[i]) && EndOf(calls[i]) + BACKOFF * (i + 1) as real <= calls[j].at
    ensures j == i + 1 ==> calls[j].at == EndOf(calls[i]) + BACKOFF * (i + 1) as real
  {
    assert Retried(deadline, calls[j - 1], calls[j], j - 1);
    assert CallDue(provider, timeout, deadline, calls[j], j);
    PauseIsFull(j, deadline, EndOf(calls[j - 1]), calls[j].at);
    if i < j - 1 { CallsAreOrdered(provider, timeout, deadline, start, calls, i, j - 1); }
  }

  lemma PauseIsFull(attempt: nat, deadline: Option<real>, ended: real, next: real)
    requires attempt >= 1 && next == ended + Pause(attempt, deadline, ended)
    requires deadline.Some? ==> next < deadline.value
    ensures next == ended + BACKOFF * attempt as real && ended <= next
  {
  }

  /** A structured call made with what is left of a deadline, as the reflection critic and
      the reviser make it: attempts, pauses and all, it is over by that deadline. */
  method GenerateWithin<R(==,!new)>(
      provider: ProviderCall<R>, maxAttempts: int, configured: real, now: real, deadline: real)
      returns (result: Result<R, Failure>, calls: seq<Call<R>>, end: real)
    ensures maxAttempts >= 1 && now < deadline && configured > 0.0 ==> calls != [] && |calls| <= maxAttempts
    ensures now < deadline && configured > 0.0 && Honours(provider) ==> now <= end <= deadline
    ensures now >= deadline ==> calls == []
    ensures forall i :: 0 <= i < |calls| ==> now <= calls[i].at < deadline
    ensures var effective := Min(configured, deadline - now);
            Schedule(provider, Some(effective), Some(now + effective), now, calls)
    ensures result == Report(maxAttempts, calls)
  {
    var effective := Min(configured, deadline - now);
    result, calls, end := CreateWithRetries(provider, maxAttempts, Some(effective), Some(effective), now);
    forall i | 0 <= i < |calls|
      ensures now <= calls[i].at < now + effective
    {
      assert CallDue(provider, Some(effective), Some(now + effective), calls[i], i);
      if i > 0 { CallsAreOrdered(provider, Some(effective), Some(now + effective), now, calls, 0, i); }
    }
    if effective > 0.0 && Honours(provider) && calls != [] {
      CallsEndInTime(provider, effective, now + effective, now, calls, |calls| - 1);
    }
  }
}
