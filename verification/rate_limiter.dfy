/** The Redis-backed rate limiter for one key (middleware/ratelimit.go). It counts within a
    fixed window that opens with the key's first request. */
module RateLimiter {

  /** The counter key: it is gone from exp on. */
  datatype Key = Key(count: nat, exp: nat)

  /** INCR, and EXPIRE when that created the key. */
  function Hit(k: Key, now: nat, window: nat): Key {
    if now < k.exp then Key(k.count + 1, k.exp) else Key(1, now + window)
  }

  /** No request yet: INCR would create the key. */
  const Unused := Key(0, 0)

  /** The key after the first i of these requests, when it was k before them. */
  function After(k: Key, times: seq<nat>, i: nat, window: nat): Key
    requires i <= |times|
  {
    if i == 0 then k else Hit(After(k, times, i - 1, window), times[i - 1], window)
  }

  predicate Admitted(k: Key, times: seq<nat>, i: nat, max: nat, window: nat)
    requires i < |times|
  {
    After(k, times, i + 1, window).count <= max
  }

  /** The requests admitted among the first i that came between from and to, both included. */
  function CountIn(k: Key, times: seq<nat>, i: nat, from: nat, to: nat, max: nat, window: nat): nat
    requires i <= |times|
  {
    if i == 0 then 0
    else CountIn(k, times, i - 1, from, to, max, window)
         + if from <= times[i - 1] <= to && Admitted(k, times, i - 1, max, window) then 1 else 0
  }

  ghost predicate Sorted(times: seq<nat>) {
    forall i, j :: 0 <= i < j < |times| ==> times[i] <= times[j]
  }

  function Min(a: nat, b: nat): nat {
    if a < b then a else b
  }

  // ---- Every arrival sequence ----

  /** The interval has seen only the key's current lifetime, or that is its second and last. */
  lemma {:induction false} AtMostTwoLifetimes(times: seq<nat>, i: nat, from: nat, max: nat, window: nat)
    requires Sorted(times) && i <= |times| && window > 0
    ensures var (n, k) := (CountIn(Unused, times, i, from, from + window, max, window), After(Unused, times, i, window));
            && n <= 2 * max
            && (i > 0 ==> times[i - 1] < k.exp)
            && (i > 0 && times[i - 1] < from ==> n == 0)
            && (i == 0 || times[i - 1] <= from + window ==>
                  n <= Min(k.count, max) || (n <= max + Min(k.count, max) && k.exp > from + window))
  {
    if i > 0 {
      AtMostTwoLifetimes(times, i - 1, from, max, window);
    }
  }

  /** In any closed interval as long as the window at most 2 * max requests are admitted,
      whatever the arrival times. */
  lemma TwiceMaxPerWindow(times: seq<nat>, from: nat, max: nat, window: nat)
    requires Sorted(times) && window > 0
    ensures CountIn(Unused, times, |times|, from, from + window, max, window) <= 2 * max
  {
    AtMostTwoLifetimes(times, |times|, from, max, window);
  }

  /** A lifetime that ends within the window seconds from from began before them, so the request
      that opened it is not among those counted. */
  lemma {:induction false} OpenerIsOutside(times: seq<nat>, i: nat, from: nat, max: nat, window: nat)
    requires Sorted(times) && i <= |times| && window > 0 && max >= 1
    ensures var (n, k) := (CountIn(Unused, times, i, from, from + window - 1, max, window), After(Unused, times, i, window));
            && n <= 2 * max - 1
            && (i == 0 ==> n == 0)
            && (i > 0 ==> k.count >= 1 && times[i - 1] < k.exp)
            && (i > 0 && times[i - 1] < from ==> n == 0)
            && (i > 0 && times[i - 1] < from + window ==>
                  n <= Min(k.count, max) - 1 || (n <= max - 1 + Min(k.count, max) && k.exp >= from + window))
  {
    if i > 0 {
      OpenerIsOutside(times, i - 1, from, max, window);
    }
  }

  /** In any window seconds (the last one not counted twice) at most 2 * max - 1 requests are
      admitted, whatever the arrival times. */
  lemma HalfOpenBound(times: seq<nat>, from: nat, max: nat, window: nat)
    requires Sorted(times) && window > 0 && max >= 1
    ensures CountIn(Unused, times, |times|, from, from + window - 1, max, window) <= 2 * max - 1
  {
    OpenerIsOutside(times, |times|, from, max, window);
  }

  /** Request number n of a key lifetime, counted from 1, is admitted exactly when n <= max. */
  lemma {:induction false} FirstMaxOfALifetime(times: seq<nat>, start: nat, i: nat, max: nat, window: nat)
    requires Sorted(times) && start <= i < |times| && window > 0
    requires After(Unused, times, start, window).exp <= times[start]
    requires times[i] < times[start] + window
    ensures After(Unused, times, i + 1, window) == Key(i - start + 1, times[start] + window)
    ensures Admitted(Unused, times, i, max, window) <==> i - start + 1 <= max
    decreases i
  {
    if i > start {
      FirstMaxOfALifetime(times, start, i - 1, max, window);
    }
  }

  // ---- Arrival sequences that meet the bounds ----

  function Burst(n: nat, t: nat): seq<nat> {
    seq(n, _ => t)
  }

  /** The closed bound is met: max requests at time 0 and max more one window later. */
  lemma BurstsMeetTheBound(max: nat, window: nat)
    requires window > 0
    ensures var times := Burst(max, 0) + Burst(max, window);
            Sorted(times) && CountIn(Unused, times, |times|, 0, window, max, window) == 2 * max
  {
    var times := Burst(max, 0) + Burst(max, window);
    AllCounted(times, max, window, 2 * max);
  }

  lemma {:induction false} AllCounted(times: seq<nat>, max: nat, window: nat, i: nat)
    requires window > 0 && times == Burst(max, 0) + Burst(max, window) && i <= 2 * max
    ensures CountIn(Unused, times, i, 0, window, max, window) == i
    ensures After(Unused, times, i, window) ==
              if i == 0 then Unused else if i <= max then Key(i, window) else Key(i - max, 2 * window)
  {
    if i > 0 {
      AllCounted(times, max, window, i - 1);
    }
  }

  /** One request opens the window, max - 1 come in its last second and max in the next. */
  function Straddle(max: nat, window: nat): seq<nat>
    requires max >= 1 && window >= 1
  {
    [0] + Burst(max - 1, window - 1) + Burst(max, window)
  }

  /** The window does not slide: 2 * max - 1 requests are admitted within two seconds, so within
      any window of two seconds or more; for max >= 2 that is more than max. */
  lemma TwoSecondsSuffice(max: nat, window: nat)
    requires max >= 1 && window >= 2
    ensures var times := Straddle(max, window);
            && Sorted(times)
            && CountIn(Unused, times, |times|, window - 1, window, max, window) == 2 * max - 1
            && CountIn(Unused, times, |times|, window - 1, window - 1 + window - 1, max, window) == 2 * max - 1
  {
    StraddleCounted(max, window, 2 * max, window);
    StraddleCounted(max, window, 2 * max, window - 1 + window - 1);
  }

  lemma {:induction false} StraddleCounted(max: nat, window: nat, i: nat, to: nat)
    requires max >= 1 && window >= 2 && i <= 2 * max && to >= window
    ensures var times := Straddle(max, window);
            && CountIn(Unused, times, i, window - 1, to, max, window) == (if i == 0 then 0 else i - 1)
            && After(Unused, times, i, window) ==
                 if i == 0 then Unused else if i <= max then Key(i, window) else Key(i - max, 2 * window)
  {
    if i > 0 {
      StraddleCounted(max, window, i - 1, to);
    }
  }

  // ---- When the limit does hold for the next window seconds ----

  ghost predicate Within(times: seq<nat>, from: nat, window: nat) {
    Sorted(times) && forall i :: 0 <= i < |times| ==> from <= times[i] < from + window
  }

  /** What can be read off the key at time from: no lifetime is running, or it outlasts these
      seconds, or it is used up. */
  predicate Settled(k: Key, from: nat, max: nat, window: nat) {
    k.exp <= from || k.exp >= from + window || k.count >= max
  }

  lemma {:induction false} SettledCount(k: Key, times: seq<nat>, i: nat, from: nat, max: nat, window: nat)
    requires window > 0 && Within(times, from, window) && i <= |times| && max >= 1 && Settled(k, from, max, window)
    ensures var (n, k') := (CountIn(k, times, i, from, from + window - 1, max, window), After(k, times, i, window));
            || (n <= Min(k'.count, max) && k'.exp >= from + window)
            || (n == 0 && (k'.count >= max || k'.exp <= from))
  {
    if i > 0 {
      SettledCount(k, times, i - 1, from, max, window);
    }
  }

  /** One more request in the running lifetime, and max at its end. */
  lemma {:induction false} UnsettledCount(k: Key, from: nat, max: nat, window: nat, i: nat)
    requires window > 0 && max >= 1 && !Settled(k, from, max, window) && i <= max
    ensures var times := [from] + Burst(max, k.exp);
            && CountIn(k, times, i + 1, from, from + window - 1, max, window) == i + 1
            && After(k, times, i + 1, window) == if i == 0 then Key(k.count + 1, k.exp) else Key(i, k.exp + window)
  {
    var times := [from] + Burst(max, k.exp);
    if i > 0 {
      UnsettledCount(k, from, max, window, i - 1);
      assert times[i] == k.exp;
    } else {
      assert After(k, times, 0, window) == k && CountIn(k, times, 0, from, from + window - 1, max, window) == 0;
    }
  }

  /** At time from, with the key as it then is, the next window seconds admit at most max requests
      whatever comes if and only if the key is settled. */
  lemma LimitHoldsExactly(k: Key, from: nat, max: nat, window: nat)
    requires window > 0 && max >= 1
    ensures (forall times :: Within(times, from, window) ==>
               CountIn(k, times, |times|, from, from + window - 1, max, window) <= max)
            <==> Settled(k, from, max, window)
  {
    if Settled(k, from, max, window) {
      forall times | Within(times, from, window)
        ensures CountIn(k, times, |times|, from, from + window - 1, max, window) <= max
      {
        SettledCount(k, times, |times|, from, max, window);
      }
    } else {
      var times := [from] + Burst(max, k.exp);
      UnsettledCount(k, from, max, window, max);
      assert Within(times, from, window) && CountIn(k, times, |times|, from, from + window - 1, max, window) > max;
    }
  }

  class Limiter {
    var now: nat
    var count: nat
    var exp: nat
    const max: nat
    const window: nat

    constructor (max: nat, window: nat)
      ensures this.max == max && this.window == window && count == 0 && exp == 0
    {
      this.max, this.window := max, window;
      now, count, exp := 0, 0, 0;
    }

    method Increment() returns (n: nat, retryAfter: nat)
      modifies this`count, this`exp
      ensures Key(count, exp) == Hit(Key(old(count), old(exp)), now, window)
      ensures n == count && (window > 0 ==> 0 < retryAfter == exp - now)
      ensures (count, exp) == if now < old(exp) then (old(count) + 1, old(exp)) else (1, now + window)
    {
      if now < exp {
        count := count + 1;
        return count, exp - now;
      }
      count := 1;
      exp := now + window;
      return count, window;
    }

    /** Serve the request, or answer 429 with the seconds until the key expires. */
    method Handle() returns (served: bool, remaining: nat, retryAfter: nat)
      modifies this`count, this`exp
      ensures Key(count, exp) == Hit(Key(old(count), old(exp)), now, window)
      ensures (count, exp) == if now < old(exp) then (old(count) + 1, old(exp)) else (1, now + window)
      ensures served <==> count <= max
      ensures remaining == if count <= max then max - count else 0
      ensures !served && window > 0 ==> now + retryAfter == exp
    {
      var n;
      n, retryAfter := Increment();
      remaining := if max < n then 0 else max - n;
      served := n <= max;
    }
  }
}
