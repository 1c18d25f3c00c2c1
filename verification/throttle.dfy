/** `RequestThrottler`: a one-minute rolling window of request timestamps, a pause
    when the window is full, and a randomised delay stretched by consecutive errors.

    The clock and the random draw are parameters: a `Clock` holds the three readings
    of `datetime.now()` one `wait()` takes (in seconds), and `draw` is the
    `random.uniform` draw expressed as a fraction in [0, 1] of the delay range. The
    advanced scraper's throttler is the same class and is modelled by this module too. */
module Throttle {
  import opened Common

  /** The length of the rolling window, one minute in seconds. */
  const Window: real := 60.0

  datatype Throttler = Throttler(
    minDelay: real,
    maxDelay: real,
    requestsPerMinute: int,
    times: seq<real>,
    consecutiveErrors: nat)

  /** `RequestThrottler(min_delay, max_delay, requests_per_minute)`. */
  function New(minDelay: real, maxDelay: real, rpm: int): (t: Throttler)
    ensures t.times == [] && t.consecutiveErrors == 0
    ensures t.minDelay == minDelay && t.maxDelay == maxDelay && t.requestsPerMinute == rpm
  {
    Throttler(minDelay, maxDelay, rpm, [], 0)
  }

  /** The readings of `datetime.now()` during one `wait()`: when the window is pruned,
      when the pause is computed, and when the request is stamped. */
  datatype Clock = Clock(prune: real, check: real, stamp: real)

  /** `[t for t in times if t > cutoff]`. */
  function Newer(times: seq<real>, cutoff: real): (kept: seq<real>)
    ensures |kept| <= |times|
    ensures forall i :: 0 <= i < |kept| ==> kept[i] > cutoff
    ensures forall i :: 0 <= i < |times| && times[i] > cutoff ==> times[i] in kept
    ensures forall x :: x in kept ==> x in times
    decreases |times|
  {
    if |times| == 0 then []
    else (if times[0] > cutoff then [times[0]] else []) + Newer(times[1..], cutoff)
  }

  /** Filtering distributes over concatenation. */
  lemma {:induction false} NewerAppend(a: seq<real>, b: seq<real>, cutoff: real)
    ensures Newer(a + b, cutoff) == Newer(a, cutoff) + Newer(b, cutoff)
    decreases |a|
  {
    if |a| > 0 {
      assert (a + b)[1..] == a[1..] + b;
      NewerAppend(a[1..], b, cutoff);
    } else {
      assert a + b == b;
    }
  }

  /** The filter read from the back: each later timestamp is appended to the pruned
      window exactly when it is after the cutoff. With `Newer([], cutoff) == []` this
      fixes the kept entries and their order. */
  lemma NewerSnoc(times: seq<real>, x: real, cutoff: real)
    ensures Newer(times + [x], cutoff) == Newer(times, cutoff) + (if x > cutoff then [x] else [])
  {
    NewerAppend(times, [x], cutoff);
    assert [x][1..] == [];
  }

  /** Each timestamp after the cutoff is kept as often as it occurs; no other is kept. */
  lemma {:induction false} NewerCounts(times: seq<real>, cutoff: real)
    ensures forall x :: multiset(Newer(times, cutoff))[x] == if x > cutoff then multiset(times)[x] else 0
    decreases |times|
  {
    if |times| > 0 {
      NewerCounts(times[1..], cutoff);
      assert times == [times[0]] + times[1..];
      assert multiset(times) == multiset([times[0]]) + multiset(times[1..]);
      var head := if times[0] > cutoff then [times[0]] else [];
      assert multiset(Newer(times, cutoff)) == multiset(head) + multiset(Newer(times[1..], cutoff));
    }
  }

  /** Filtering a second time with a later cutoff is filtering once with it. */
  lemma {:induction false} NewerTwice(times: seq<real>, c1: real, c2: real)
    requires c1 <= c2
    ensures Newer(Newer(times, c1), c2) == Newer(times, c2)
    decreases |times|
  {
    if |times| > 0 {
      NewerTwice(times[1..], c1, c2);
      var head := if times[0] > c1 then [times[0]] else [];
      NewerAppend(head, Newer(times[1..], c1), c2);
    }
  }

  /** A later cutoff keeps no more entries. */
  lemma {:induction false} NewerShrinks(times: seq<real>, c1: real, c2: real)
    requires c1 <= c2
    ensures |Newer(times, c2)| <= |Newer(times, c1)|
    decreases |times|
  {
    if |times| > 0 {
      NewerShrinks(times[1..], c1, c2);
    }
  }

  /** An entry at or before the cutoff at the front is dropped. */
  lemma NewerDropsFront(times: seq<real>, cutoff: real)
    requires |times| > 0 && times[0] <= cutoff
    ensures |Newer(times, cutoff)| <= |times| - 1
  {
  }

  /** What `wait()` does: the pause for a full window (0 when none), the randomised
      delay, and the throttler afterwards. */
  datatype Waited = Waited(pause: real, delay: real, after: Throttler)

  /** The stretch applied to the delay after `consecutive_errors` failures. */
  function ErrorMultiplier(errors: nat): (m: real)
    ensures m >= 1.0
  {
    1.0 + errors as real * 0.5
  }

  /** `random.uniform(min_delay, max_delay)` for a draw `draw` in [0, 1]. */
  function Uniform(lo: real, hi: real, draw: real): real {
    lo + (hi - lo) * draw
  }

  /** `wait()`. With a non-positive `requests_per_minute` and an empty window the
      rate-limit branch indexes an empty list, which raises `IndexError`; otherwise a
      negative randomised delay (possible only with a negative `min_delay` or
      `max_delay`) makes `time.sleep` raise `ValueError`. Both are `Err`. */
  function Wait(t: Throttler, clock: Clock, draw: real): (r: Result<Waited, string>)
    ensures r.Err? <==> (t.requestsPerMinute <= 0 && |Newer(t.times, clock.prune - Window)| == 0)
                        || Uniform(t.minDelay, t.maxDelay, draw) * ErrorMultiplier(t.consecutiveErrors) < 0.0
    ensures r.Err? && t.requestsPerMinute <= 0 && |Newer(t.times, clock.prune - Window)| == 0 ==> r.error == "IndexError"
    ensures r.Err? && !(t.requestsPerMinute <= 0 && |Newer(t.times, clock.prune - Window)| == 0) ==> r.error == "ValueError"
    ensures r.Ok? ==> r.value.delay >= 0.0
    ensures r.Ok? ==> r.value.after.times == Newer(t.times, clock.prune - Window) + [clock.stamp]
    ensures r.Ok? ==> r.value.after == t.(times := r.value.after.times)
    ensures r.Ok? ==> r.value.delay == Uniform(t.minDelay, t.maxDelay, draw) * ErrorMultiplier(t.consecutiveErrors)
    ensures r.Ok? ==> r.value.pause >= 0.0
    ensures r.Ok? && r.value.pause > 0.0 ==>
              var kept := Newer(t.times, clock.prune - Window);
              |kept| >= t.requestsPerMinute && |kept| > 0
              && r.value.pause == Window - (clock.check - kept[0])
    ensures r.Ok? && |Newer(t.times, clock.prune - Window)| >= t.requestsPerMinute ==>
              clock.check + r.value.pause >= Newer(t.times, clock.prune - Window)[0] + Window
  {
    var kept := Newer(t.times, clock.prune - Window);
    if |kept| >= t.requestsPerMinute && |kept| == 0 then Err("IndexError")
    else
      var pause := WindowPause(kept, t.requestsPerMinute, clock.check);
      var delay := Uniform(t.minDelay, t.maxDelay, draw) * ErrorMultiplier(t.consecutiveErrors);
      if delay < 0.0 then Err("ValueError")
      else Ok(Waited(pause, delay, t.(times := kept + [clock.stamp])))
  }

  /** The rate-limit pause of `wait()` for the pruned window `kept`: when the window is
      full, the time left until its oldest entry leaves it, and never negative. */
  function WindowPause(kept: seq<real>, rpm: int, check: real): (pause: real)
    requires |kept| >= rpm ==> |kept| > 0
    ensures pause >= 0.0
    ensures pause > 0.0 ==> |kept| >= rpm && pause == Window - (check - kept[0])
    ensures |kept| >= rpm ==> check + pause >= kept[0] + Window
  {
    if |kept| >= rpm then
      var waitTime := Window - (check - kept[0]);
      if waitTime > 0.0 then waitTime else 0.0
    else 0.0
  }

  /** `record_success()`. */
  function RecordSuccess(t: Throttler): (u: Throttler)
    ensures u.consecutiveErrors == 0
    ensures u == t.(consecutiveErrors := 0)
  {
    t.(consecutiveErrors := 0)
  }

  /** `record_error()`. */
  function RecordError(t: Throttler): (u: Throttler)
    ensures u.consecutiveErrors == t.consecutiveErrors + 1
    ensures u == t.(consecutiveErrors := u.consecutiveErrors)
  {
    t.(consecutiveErrors := t.consecutiveErrors + 1)
  }

  /** The delay lies between the bounds stretched by the error multiplier. */
  lemma DelayBounds(t: Throttler, draw: real)
    requires 0.0 <= t.minDelay <= t.maxDelay && 0.0 <= draw <= 1.0
    ensures var d := Uniform(t.minDelay, t.maxDelay, draw) * ErrorMultiplier(t.consecutiveErrors);
            t.minDelay * ErrorMultiplier(t.consecutiveErrors) <= d <= t.maxDelay * ErrorMultiplier(t.consecutiveErrors)
  {
    var m := ErrorMultiplier(t.consecutiveErrors);
    var w := t.maxDelay - t.minDelay;
    var u := Uniform(t.minDelay, t.maxDelay, draw);
    MulNonNegative(w, draw);
    MulNonNegative(w, 1.0 - draw);
    assert u - t.minDelay == w * draw;
    assert t.maxDelay - u == w * (1.0 - draw);
    MulNonNegative(u - t.minDelay, m);
    MulNonNegative(t.maxDelay - u, m);
  }

  lemma MulNonNegative(a: real, b: real)
    requires a >= 0.0 && b >= 0.0
    ensures a * b >= 0.0
  {
  }

  /** Each recorded error stretches the delay by half the drawn base delay; a success
      returns it to the drawn base. */
  lemma ErrorsStretchDelay(t: Throttler, draw: real)
    ensures Uniform(t.minDelay, t.maxDelay, draw) * ErrorMultiplier(RecordError(t).consecutiveErrors)
            == Uniform(t.minDelay, t.maxDelay, draw) * ErrorMultiplier(t.consecutiveErrors)
               + 0.5 * Uniform(t.minDelay, t.maxDelay, draw)
    ensures Uniform(t.minDelay, t.maxDelay, draw) * ErrorMultiplier(RecordSuccess(t).consecutiveErrors)
            == Uniform(t.minDelay, t.maxDelay, draw)
  {
  }

  /** The throttler's rate guarantee: if the window held at most `requests_per_minute`
      entries when `wait()` pruned it and the clock does not run backwards, then one
      minute before the new stamp at most `requests_per_minute` recorded requests remain. */
  lemma {:induction false} WindowStaysWithinRate(t: Throttler, clock: Clock, draw: real)
    requires t.requestsPerMinute >= 1
    requires |Newer(t.times, clock.prune - Window)| <= t.requestsPerMinute
    requires Wait(t, clock, draw).Ok?
    requires clock.stamp >= clock.check + Wait(t, clock, draw).value.pause
    requires clock.stamp >= clock.prune
    ensures |Newer(Wait(t, clock, draw).value.after.times, clock.stamp - Window)| <= t.requestsPerMinute
  {
    var kept := Newer(t.times, clock.prune - Window);
    var after := Wait(t, clock, draw).value.after.times;
    NewerAppend(kept, [clock.stamp], clock.stamp - Window);
    assert Newer([clock.stamp], clock.stamp - Window) == [clock.stamp];
    if |kept| >= t.requestsPerMinute {
      NewerDropsFront(kept, clock.stamp - Window);
    }
  }

  /** Consecutive waits keep the window within the rate: whatever the next prune reading,
      if it is not earlier than the previous stamp, the window it keeps is within the rate. */
  lemma NextWindowWithinRate(t: Throttler, clock: Clock, draw: real, nextPrune: real)
    requires t.requestsPerMinute >= 1
    requires |Newer(t.times, clock.prune - Window)| <= t.requestsPerMinute
    requires Wait(t, clock, draw).Ok?
    requires clock.stamp >= clock.check + Wait(t, clock, draw).value.pause
    requires clock.stamp >= clock.prune
    requires nextPrune >= clock.stamp
    ensures |Newer(Wait(t, clock, draw).value.after.times, nextPrune - Window)| <= t.requestsPerMinute
  {
    WindowStaysWithinRate(t, clock, draw);
    NewerShrinks(Wait(t, clock, draw).value.after.times, clock.stamp - Window, nextPrune - Window);
  }
}
