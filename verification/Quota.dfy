/** The per-tenant rate limiter: a window that restarts once a full second has passed. */
module Quota {

  /** One second, in the nanoseconds an Instant counts. */
  const SECOND: nat := 1_000_000_000

  /** The counter is a 64-bit atomic whose additions wrap. */
  const U64_MODULUS: nat := 0x1_0000_0000_0000_0000

  datatype Window = Window(max: nat, count: nat, start: nat) {
    predicate Valid() {
      count <= max < U64_MODULUS
    }
  }

  function Elapsed(w: Window, now: nat): nat {
    if now < w.start then 0 else now - w.start
  }

  /** What one acquisition at time `now` does: the new window, and whether it was granted. */
  function Acquire(w: Window, now: nat): (Window, bool) {
    var w' := if Elapsed(w, now) >= SECOND then w.(count := 0, start := now) else w;
    if w'.count < w'.max then (w'.(count := w'.count + 1), true) else (w', false)
  }

  class RateLimiter {
    const maxPerSecond: nat
    var count: nat
    var windowStart: nat

    function Now(): Window
      reads this
    {
      Window(maxPerSecond, count, windowStart)
    }

    constructor (max: nat, now: nat)
      requires max < U64_MODULUS
      ensures Now() == Window(max, 0, now) && Now().Valid()
    {
      maxPerSecond, count, windowStart := max, 0, now;
    }

    /** Counts first and takes the count back when the limit was already reached; the
        taking back is exact even where the addition wraps. */
    method TryAcquire(now: nat) returns (granted: bool)
      requires Now().Valid()
      modifies this
      ensures (Now(), granted) == Acquire(old(Now()), now)
      ensures Now().Valid()
    {
      var elapsed := if now < windowStart then 0 else now - windowStart;
      if elapsed / SECOND >= 1 {
        count := 0;
        windowStart := now;
      }
      var current := count;
      count := (count + 1) % U64_MODULUS;
      if current >= maxPerSecond {
        count := (count + U64_MODULUS - 1) % U64_MODULUS;
        return false;
      }
      return true;
    }
  }

  /** A call is granted if and only if the limiter grants anything at all and either a full second has
      passed since its window began or the window has room. */
  lemma GrantedExactly(w: Window, now: nat)
    requires w.Valid()
    ensures Acquire(w, now).1 <==> 0 < w.max && (now >= w.start + 1_000_000_000 || w.count < w.max)
  {
  }

  /** A full second after the window began a call begins a new one; within it the window stays. */
  lemma WindowAfter(w: Window, now: nat)
    requires w.Valid()
    ensures var (w', granted) := Acquire(w, now);
      && w'.max == w.max
      && (now >= w.start + 1_000_000_000 ==> w'.start == now && w'.count == if granted then 1 else 0)
      && (now < w.start + 1_000_000_000 ==> w'.start == w.start && w'.count == w.count + if granted then 1 else 0)
  {
  }

  // Whole runs: a monotone sequence of call times, and the grants counted in an interval.

  predicate Monotone(times: seq<nat>) {
    forall i, j | 0 <= i < j < |times| :: times[i] <= times[j]
  }

  function Final(w: Window, times: seq<nat>): Window
    decreases times
  {
    if times == [] then w else Final(Acquire(w, times[0]).0, times[1..])
  }

  /** How many calls of the run are granted at a time in [from, until). */
  function Granted(w: Window, times: seq<nat>, from: int, until: int): nat
    decreases times
  {
    if times == [] then 0
    else
      (if Acquire(w, times[0]).1 && from <= times[0] < until then 1 else 0)
      + Granted(Acquire(w, times[0]).0, times[1..], from, until)
  }

  lemma {:induction false} FinalValid(w: Window, times: seq<nat>)
    requires w.Valid()
    ensures Final(w, times).Valid() && Final(w, times).max == w.max
    decreases times
  {
    if times != [] {
      FinalValid(Acquire(w, times[0]).0, times[1..]);
    }
  }

  /** From a window that starts inside the interval no restart is possible before its end, so
      only what is left of that one window can be granted. */
  lemma {:induction false} OneWindow(w: Window, times: seq<nat>, from: nat)
    requires w.Valid() && Monotone(times) && from <= w.start
    ensures times != [] && times[0] >= from + SECOND ==> Granted(w, times, from, from + SECOND) == 0
    ensures Granted(w, times, from, from + SECOND) <= w.max - w.count
    decreases times
  {
    if times != [] {
      var w' := Acquire(w, times[0]).0;
      OneWindow(w', times[1..], from);
    }
  }

  /** The grants of one window never exceed the maximum. */
  lemma WindowGrantsAtMostMax(w: Window, times: seq<nat>)
    requires w.Valid() && Monotone(times)
    ensures Granted(w.(count := 0), times, w.start, w.start + SECOND) <= w.max
  {
    OneWindow(w.(count := 0), times, w.start);
  }

  lemma {:induction false} TwoWindows(w: Window, times: seq<nat>, from: nat)
    requires w.Valid() && Monotone(times) && w.start < from
    requires times != [] ==> from <= times[0]
    ensures Granted(w, times, from, from + SECOND) <= 2 * w.max - w.count
    decreases times
  {
    if times != [] {
      var w' := Acquire(w, times[0]).0;
      if w'.start < from {
        TwoWindows(w', times[1..], from);
      } else {
        OneWindow(w', times[1..], from);
      }
    }
  }

  /** Every half-open second holds at most twice the configured maximum. */
  lemma {:induction false} SlidingBound(w: Window, times: seq<nat>, from: nat)
    requires w.Valid() && Monotone(times)
    requires times != [] ==> w.start <= times[0]
    ensures Granted(w, times, from, from + SECOND) <= 2 * w.max
    decreases times
  {
    if from <= w.start {
      OneWindow(w, times, from);
    } else if times != [] && times[0] < from {
      SlidingBound(Acquire(w, times[0]).0, times[1..], from);
    } else {
      TwoWindows(w, times, from);
    }
  }

  // The bound cannot be improved: a burst on each side of a restart reaches it.

  function Repeat(t: nat, n: nat): (r: seq<nat>)
    ensures |r| == n && forall i | 0 <= i < n :: r[i] == t
  {
    seq(n, i => t)
  }

  lemma {:induction false} Burst(w: Window, t: nat, n: nat, rest: seq<nat>, from: nat)
    requires w.start <= t < w.start + SECOND && w.count + n <= w.max
    requires from <= t < from + SECOND
    ensures Granted(w, Repeat(t, n) + rest, from, from + SECOND)
         == n + Granted(w.(count := w.count + n), rest, from, from + SECOND)
    decreases n
  {
    var times := Repeat(t, n) + rest;
    if n == 0 {
      assert times == rest;
    } else {
      assert times[1..] == Repeat(t, n - 1) + rest;
      Burst(w.(count := w.count + 1), t, n - 1, rest, from);
    }
  }

  /** The grants of a new limiter's run within the second that starts at `from`. */
  function GrantedInSecond(max: nat, times: seq<nat>, from: nat): nat {
    Granted(Window(max, 0, 0), times, from, from + SECOND)
  }

  ghost predicate SlidingWindowKept(max: nat) {
    forall times: seq<nat>, from: nat ::
      Monotone(times) ==> GrantedInSecond(max, times, from) <= max
  }

  /** Right after a restart-free second, `max` calls just before its end and `max` calls at
      the restart are all granted: twice the maximum inside one second. */
  lemma TwiceTheMaximum(max: nat) returns (times: seq<nat>, from: nat)
    requires 0 < max
    ensures Monotone(times) && GrantedInSecond(max, times, from) == 2 * max
  {
    from := SECOND - 1;
    var second := [SECOND] + Repeat(SECOND, max - 1);
    times := Repeat(from, max) + second;
    Burst(Window(max, 0, 0), from, max, second, from);
    var restarted := Acquire(Window(max, max, 0), SECOND).0;
    assert second[1..] == Repeat(SECOND, max - 1) + [];
    Burst(restarted, SECOND, max - 1, [], from);
  }

  /** A true sliding window would never exceed the maximum itself; this one keeps that only
      when it grants nothing at all. */
  lemma SlidingWindowKeptOnlyByZero(max: nat)
    requires max < U64_MODULUS
    ensures SlidingWindowKept(max) <==> max == 0
  {
    if max == 0 {
      forall times: seq<nat>, from: nat | Monotone(times)
        ensures GrantedInSecond(max, times, from) <= max
      {
        SlidingBound(Window(max, 0, 0), times, from);
      }
    } else {
      var times, from := TwiceTheMaximum(max);
    }
  }
}
