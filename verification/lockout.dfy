/** The login lockout of one email key (auth/service.go). Time is in whole seconds, the
    unit of Redis TTL; one failed Login is one step. */
module Lockout {

  /** The lock that the diff-th failure at or past the limit sets. */
  function LockSeconds(diff: int): nat {
    if diff < 3 then 60 else if diff < 6 then 300 else 1800
  }

  function ProgressiveLockout(attempts: nat): nat {
    if attempts < 5 then 0 else if attempts < 8 then 60 else if attempts < 11 then 300 else 1800
  }

  /** The failure counter, the lock key's expiry, and the times of the recorded failures. */
  datatype Key = Key(fails: nat, lockedUntil: nat, log: seq<nat>)

  const Fresh := Key(0, 0, [])

  predicate Locked(k: Key, now: nat) {
    now < k.lockedUntil
  }

  function Record(k: Key, now: nat, max: int): Key {
    var fails := k.fails + 1;
    Key(fails, if fails >= max then now + LockSeconds(fails - max) else k.lockedUntil, k.log + [now])
  }

  /** A Login with a wrong password at time now, under the limit max. */
  function Fail(k: Key, now: nat, max: int): Key {
    if Locked(k, now) then k else Record(k, now, max)
  }

  function After(times: seq<nat>, max: int): Key {
    if times == [] then Fresh else Fail(After(times[..|times| - 1], max), times[|times| - 1], max)
  }

  ghost predicate Sorted(times: seq<nat>) {
    forall i, j :: 0 <= i < j < |times| ==> times[i] <= times[j]
  }

  /** What the first n locks add up to. */
  function TotalLock(n: nat): nat {
    if n == 0 then 0 else TotalLock(n - 1) + LockSeconds(n - 1)
  }

  lemma {:induction false} TotalLockValue(n: nat)
    requires n >= 6
    ensures TotalLock(n) == 1080 + 1800 * (n - 6)
  {
    if n == 6 {
      assert TotalLock(3) == 180;
    } else {
      TotalLockValue(n - 1);
    }
  }

  /** Failure i came no sooner than the lock of the one before allowed. */
  predicate Apart(log: seq<nat>, i: nat, max: int)
    requires 0 < i < |log|
  {
    log[i - 1] + LockSeconds(i - max) <= log[i]
  }

  ghost predicate Spaced(k: Key, max: int) {
    && |k.log| == k.fails
    && Sorted(k.log)
    && (k.fails >= max && k.fails > 0 ==> k.lockedUntil == k.log[k.fails - 1] + LockSeconds(k.fails - max))
    && (k.fails < max || k.fails == 0 ==> k.lockedUntil == 0)
    && (forall i :: max <= i < k.fails && 0 < i ==> Apart(k.log, i, max))
  }

  lemma {:induction false} AlwaysSpaced(times: seq<nat>, max: int)
    requires Sorted(times)
    ensures Spaced(After(times, max), max)
    ensures After(times, max).log != [] ==> times != [] && After(times, max).log[|After(times, max).log| - 1] <= times[|times| - 1]
  {
    if times != [] {
      AlwaysSpaced(times[..|times| - 1], max);
      FailSpaced(After(times[..|times| - 1], max), times[|times| - 1], max);
    }
  }

  lemma FailSpaced(k: Key, now: nat, max: int)
    requires Spaced(k, max) && (k.log != [] ==> k.log[|k.log| - 1] <= now)
    ensures Spaced(Fail(k, now, max), max)
    ensures var log := Fail(k, now, max).log; log != [] ==> log[|log| - 1] <= now
  {
    var k' := Fail(k, now, max);
    if k' != k {
      assert k'.log == k.log + [now] && k'.fails == k.fails + 1 && k.lockedUntil <= now;
      assert k.fails >= max && k.fails > 0 ==> k.log[k.fails - 1] + LockSeconds(k.fails - max) <= now;
      assert Sorted(k'.log);
      forall i | max <= i < k'.fails && 0 < i ensures Apart(k'.log, i, max) {
        assert i < k.fails ==> Apart(k.log, i, max);
      }
    }
  }

  lemma {:induction false} LocksAddUp(log: seq<nat>, max: int, n: nat)
    requires 1 <= max <= n <= |log|
    requires forall i :: max <= i < |log| ==> Apart(log, i, max)
    ensures log[max - 1] + TotalLock(n - max) <= log[n - 1]
  {
    if n > max {
      LocksAddUp(log, max, n - 1);
      assert Apart(log, n - 1, max);
    }
  }

  /** With no success or unlock, n >= max + 6 recorded failures take at least
      1080 + 1800 * (n - max - 6) seconds, however the attempts are timed. */
  lemma GuessingTakesTime(times: seq<nat>, max: int)
    requires Sorted(times) && max >= 1 && After(times, max).fails >= max + 6
    ensures var k := After(times, max);
            |k.log| == k.fails && k.log[0] + 1080 + 1800 * (k.fails - max - 6) <= k.log[k.fails - 1]
  {
    var k := After(times, max);
    AlwaysSpaced(times, max);
    LocksAddUp(k.log, max, k.fails);
    TotalLockValue(k.fails - max);
  }

  /** The times of someone who tries again the moment each lock ends. */
  function Relentless(n: nat, max: nat): seq<nat> {
    seq(n, i requires 0 <= i < n => RelentlessAt(i, max))
  }

  function RelentlessAt(i: nat, max: nat): nat {
    if i < max then 0 else TotalLock(i - max + 1)
  }

  lemma {:induction false} TotalLockGrows(m: nat, n: nat)
    requires m <= n
    ensures TotalLock(m) <= TotalLock(n)
    decreases n
  {
    if m < n {
      TotalLockGrows(m, n - 1);
    }
  }

  lemma RelentlessSorted(n: nat, max: nat)
    requires max >= 1
    ensures Sorted(Relentless(n, max))
  {
    forall i, j | 0 <= i < j < n ensures Relentless(n, max)[i] <= Relentless(n, max)[j] {
      if i >= max {
        TotalLockGrows(i - max + 1, j - max + 1);
      }
    }
  }

  lemma LockEndsInTime(k: Key, n: nat, max: nat)
    requires max >= 1 && Spaced(k, max) && k.log == Relentless(n, max)
    ensures !Locked(k, RelentlessAt(n, max))
  {
    if n >= max {
      assert k.log[n - 1] == RelentlessAt(n - 1, max);
    }
  }

  lemma AfterOneMore(times: seq<nat>, t: nat, max: int)
    ensures After(times + [t], max) == Fail(After(times, max), t, max)
  {
    assert (times + [t])[..|times|] == times;
  }

  /** The bound is exact: those n attempts are all recorded, and take just the sum of the locks. */
  lemma BoundIsExact(n: nat, max: nat)
    requires 1 <= max <= n
    ensures After(Relentless(n, max), max).log == Relentless(n, max)
    ensures Relentless(n, max)[n - 1] == Relentless(n, max)[0] + TotalLock(n - max)
  {
    AllRecorded(n, max);
  }

  lemma {:induction false} AllRecorded(n: nat, max: nat)
    requires max >= 1
    ensures After(Relentless(n, max), max).log == Relentless(n, max)
  {
    if n > 0 {
      var before, t := Relentless(n - 1, max), RelentlessAt(n - 1, max);
      AllRecorded(n - 1, max);
      assert !Locked(After(before, max), t) by {
        RelentlessSorted(n - 1, max);
        AlwaysSpaced(before, max);
        LockEndsInTime(After(before, max), n - 1, max);
      }
      assert Relentless(n, max) == before + [t];
      AfterOneMore(before, t, max);
    }
  }

  /** Lock time never shrinks as failures grow. */
  lemma LocksNeverShrink(k: Key, k': Key, now: nat, max: int)
    requires k.fails <= k'.fails && !Locked(k, now) && !Locked(k', now) && k.fails + 1 >= max
    ensures Fail(k, now, max).lockedUntil <= Fail(k', now, max).lockedUntil
  {
  }

  /** At the default limit of 5 the inline schedule is progressiveLockout. */
  lemma DefaultScheduleIsProgressive(k: Key, now: nat)
    requires !Locked(k, now)
    ensures var k' := Fail(k, now, 5);
            if ProgressiveLockout(k'.fails) == 0 then k'.lockedUntil == k.lockedUntil
            else k'.lockedUntil == now + ProgressiveLockout(k'.fails)
  {
  }

  class LoginGuard {
    var now: nat
    var fails: nat
    var lockedUntil: nat
    ghost var log: seq<nat>

    ghost function State(): Key
      reads this
    {
      Key(fails, lockedUntil, log)
    }

    constructor ()
      ensures State() == Fresh && now == 0
    {
      now, fails, lockedUntil, log := 0, 0, 0, [];
    }

    /** The seconds left on the lock, 0 when there is none. */
    method CheckLockout() returns (retryAfter: nat)
      ensures retryAfter > 0 <==> Locked(State(), now)
      ensures retryAfter == if now < lockedUntil then lockedUntil - now else 0
    {
      retryAfter := if now < lockedUntil then lockedUntil - now else 0;
    }

    method RecordFailedAttempt(max: int)
      modifies this`fails, this`lockedUntil, this`log
      ensures State() == Record(old(State()), now, max)
      ensures fails == old(fails) + 1 && log == old(log) + [now]
      ensures lockedUntil == if fails < max then old(lockedUntil)
                             else now + if fails - max <= 2 then 60 else if fails - max <= 5 then 300 else 1800
    {
      fails := fails + 1;
      log := log + [now];
      if fails >= max {
        var diff := fails - max;
        var d := 1800;
        if diff < 3 {
          d := 60;
        } else if diff < 6 {
          d := 300;
        }
        lockedUntil := now + d;
      }
    }

    method ClearFailedAttempts()
      modifies this`fails, this`lockedUntil, this`log
      ensures State() == Fresh && !Locked(State(), now)
      ensures fails == 0 && lockedUntil == 0
    {
      fails, lockedUntil, log := 0, 0, [];
    }

    /** The lockout path of one Login; correct says whether the password matched. */
    method Login(correct: bool, max: int) returns (locked: bool)
      modifies this`fails, this`lockedUntil, this`log
      ensures locked <==> Locked(old(State()), now)
      ensures State() == if locked || !correct then Fail(old(State()), now, max) else Fresh
      ensures locked <==> now < old(lockedUntil)
      ensures locked ==> State() == old(State())
      ensures !locked && correct ==> fails == 0 && lockedUntil == 0
      ensures !locked && !correct ==>
                && fails == old(fails) + 1 && log == old(log) + [now]
                && lockedUntil == if fails < max then old(lockedUntil)
                                  else now + if fails - max <= 2 then 60 else if fails - max <= 5 then 300 else 1800
    {
      var retryAfter := CheckLockout();
      if retryAfter > 0 {
        return true;
      }
      if correct {
        ClearFailedAttempts();
      } else {
        RecordFailedAttempt(max);
      }
      locked := false;
    }
  }
}
