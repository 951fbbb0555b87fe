/** The login lockout when guesses overlap (auth/service.go): the lock check, the INCR that counts
    a failure and the SET of its lock are three steps, and other logins may come between them. */
module LockoutOverlap {
  import opened Lockout

  /** The SET that failure number k sent, and when. */
  datatype LockSet = LockSet(at: nat, k: nat)

  /** waiting guesses have passed the check and not been counted; setting holds the numbers of the
      failures counted whose lock is still to be set. log and sets, the times of all INCRs and all
      SETs so far, are history. */
  datatype Sys = Sys(now: nat, lockedUntil: nat, waiting: nat, setting: set<nat>, log: seq<nat>, sets: seq<LockSet>)

  const Start := Sys(0, 0, 0, {}, [], [])

  datatype Act = Check | Counts | Locks(k: nat) | Leaves | Waits(seconds: nat)

  function Step(s: Sys, a: Act, max: nat): Sys {
    match a
    case Check => if s.now < s.lockedUntil then s else s.(waiting := s.waiting + 1)
    case Counts =>
      if s.waiting == 0 then s
      else
        var k := |s.log| + 1;
        s.(waiting := s.waiting - 1, log := s.log + [s.now], setting := if k >= max then s.setting + {k} else s.setting)
    case Locks(k) =>
      if k !in s.setting then s
      else s.(lockedUntil := s.now + LockSeconds(k - max), setting := s.setting - {k}, sets := s.sets + [LockSet(s.now, k)])
    case Leaves => if s.waiting == 0 then s else s.(waiting := s.waiting - 1)
    case Waits(d) => s.(now := s.now + d)
  }

  function Run(s: Sys, acts: seq<Act>, max: nat): Sys
    decreases |acts|
  {
    if acts == [] then s else Run(Step(s, acts[0], max), acts[1..], max)
  }

  /** A guess by itself, its lock set before the next check, is Fail. */
  lemma GuessIsItsSteps(s: Sys, max: nat)
    requires s.waiting == 0 && s.setting == {}
    ensures var s' := Run(s, [Check, Counts, Locks(|s.log| + 1)], max);
            && Key(|s'.log|, s'.lockedUntil, s'.log) == Fail(Key(|s.log|, s.lockedUntil, s.log), s.now, max)
            && s'.now == s.now && s'.waiting == 0 && s'.setting == {}
  {
    var acts := [Check, Counts, Locks(|s.log| + 1)];
    var s1 := Step(s, Check, max);
    var s2 := Step(s1, Counts, max);
    var s3 := Step(s2, acts[2], max);
    assert acts[1..] == [Counts, acts[2]] && acts[1..][1..] == [acts[2]] && acts[1..][1..][1..] == [];
    assert Run(s2, [acts[2]], max) == Run(s3, [], max) == s3;
    assert Run(s1, acts[1..], max) == s3;
  }

  function InFlight(s: Sys): nat {
    s.waiting + |s.setting|
  }

  /** At no moment of the run are more than c guesses past the lock check and not over. */
  predicate AtMost(s: Sys, acts: seq<Act>, max: nat, c: nat)
    decreases |acts|
  {
    InFlight(s) <= c && (acts != [] ==> AtMost(Step(s, acts[0], max), acts[1..], max, c))
  }

  // ---- The bound ----

  function End(l: LockSet, max: nat): nat {
    l.at + LockSeconds(l.k - max)
  }

  /** The i-th lock was set at or after from and was to end by to. */
  predicate Between(sets: seq<LockSet>, i: nat, max: nat, from: nat, to: nat) {
    i < |sets| && from <= sets[i].at && End(sets[i], max) <= to
  }

  ghost predicate Passed(sets: seq<LockSet>, max: nat, from: nat, to: nat) {
    exists i: nat :: Between(sets, i, max, from, to)
  }

  /** Failure k and all after it have their locks still to set. */
  predicate NoneSet(s: Sys, k: nat) {
    forall i :: k <= i <= |s.log| ==> i in s.setting
  }

  /** Since failure k a whole lock has passed; or no failure from k on has set one; or one has, and
      those counted since and those waiting are no more than were in flight then. */
  ghost predicate HeldUp(s: Sys, k: nat, max: nat, c: nat)
    requires 1 <= k <= |s.log|
  {
    || Passed(s.sets, max, s.log[k - 1], s.now)
    || NoneSet(s, k)
    || (|s.log| - k + 1 + s.waiting <= c && s.sets != [] && s.log[k - 1] <= s.sets[|s.sets| - 1].at)
  }

  /** Between failures k and k + c a whole lock passes. */
  ghost predicate FarApart(s: Sys, k: nat, max: nat, c: nat)
    requires 1 <= k && k + c <= |s.log| && c >= 1
  {
    Passed(s.sets, max, s.log[k - 1], s.log[k + c - 1])
  }

  ghost predicate SetsOk(s: Sys, max: nat) {
    && (forall k :: k in s.setting ==> max <= k <= |s.log|)
    && (forall i :: 0 <= i < |s.sets| ==> max <= s.sets[i].k <= |s.log| && s.sets[i].k !in s.setting && s.sets[i].at <= s.now)
    && (forall i, j :: 0 <= i < j < |s.sets| ==> s.sets[i].k != s.sets[j].k)
    && s.lockedUntil == if s.sets == [] then 0 else End(s.sets[|s.sets| - 1], max)
  }

  ghost predicate LogOk(s: Sys) {
    Sorted(s.log) && (s.log != [] ==> s.log[|s.log| - 1] <= s.now)
  }

  ghost predicate Inv(s: Sys, max: nat, c: nat)
    requires max >= 1 && c >= 1
  {
    && SetsOk(s, max) && LogOk(s)
    && (forall k :: max <= k <= |s.log| ==> HeldUp(s, k, max, c))
    && (forall k :: max <= k && k + c <= |s.log| ==> FarApart(s, k, max, c))
  }

  lemma {:induction false} RangeSize(lo: nat, hi: nat, within: set<nat>)
    requires forall i :: lo <= i <= hi ==> i in within
    ensures lo <= hi ==> hi - lo + 1 <= |within|
    decreases hi
  {
    if lo < hi {
      RangeSize(lo, hi - 1, within - {hi});
    }
  }

  lemma StillBetween(s: Sys, s': Sys, max: nat, from: nat, to: nat, to': nat)
    requires s.sets <= s'.sets && to <= to' && Passed(s.sets, max, from, to)
    ensures Passed(s'.sets, max, from, to')
  {
    var i: nat :| Between(s.sets, i, max, from, to);
    assert Between(s'.sets, i, max, from, to');
  }

  /** A new failure is c behind failure k only when a whole lock has passed since. */
  lemma CountedFar(s: Sys, max: nat, c: nat, k: nat)
    requires 1 <= max <= k && c >= 1 && k + c == |s.log| + 1 && HeldUp(s, k, max, c)
    requires s.waiting >= 1 && InFlight(s) <= c
    ensures Passed(s.sets, max, s.log[k - 1], s.now)
  {
    if NoneSet(s, k) {
      RangeSize(k, |s.log|, s.setting);
    }
  }

  lemma CountsInv(s: Sys, max: nat, c: nat)
    requires max >= 1 && c >= 1 && Inv(s, max, c) && s.waiting >= 1 && InFlight(s) <= c
    ensures Inv(Step(s, Counts, max), max, c)
  {
    var s' := Step(s, Counts, max);
    forall k | max <= k <= |s'.log| ensures HeldUp(s', k, max, c) {
      if k <= |s.log| {
        assert HeldUp(s, k, max, c) && s'.log[k - 1] == s.log[k - 1];
        assert NoneSet(s, k) ==> NoneSet(s', k);
      } else {
        assert NoneSet(s', k);
      }
    }
    forall k | max <= k && k + c <= |s'.log| ensures FarApart(s', k, max, c) {
      if k + c <= |s.log| {
        assert FarApart(s, k, max, c);
      } else {
        CountedFar(s, max, c, k);
        assert s'.log[k - 1] == s.log[k - 1] && s'.log[k + c - 1] == s.now;
      }
    }
  }

  lemma LocksHeldUp(s: Sys, j: nat, max: nat, c: nat, k: nat)
    requires 1 <= max <= k <= |s.log| && HeldUp(s, k, max, c) && j in s.setting && InFlight(s) <= c && s.log[k - 1] <= s.now
    ensures HeldUp(Step(s, Locks(j), max), k, max, c)
  {
    var s' := Step(s, Locks(j), max);
    if Passed(s.sets, max, s.log[k - 1], s.now) {
      StillBetween(s, s', max, s.log[k - 1], s.now, s.now);
    } else if NoneSet(s, k) {
      RangeSize(k, |s.log|, s.setting);
    }
  }

  lemma LocksInv(s: Sys, j: nat, max: nat, c: nat)
    requires max >= 1 && c >= 1 && Inv(s, max, c) && j in s.setting && InFlight(s) <= c
    ensures Inv(Step(s, Locks(j), max), max, c)
  {
    var s' := Step(s, Locks(j), max);
    forall k | max <= k <= |s.log| ensures HeldUp(s', k, max, c) {
      assert s.log[k - 1] <= s.log[|s.log| - 1];
      LocksHeldUp(s, j, max, c, k);
    }
    forall k | max <= k && k + c <= |s.log| ensures FarApart(s', k, max, c) {
      assert FarApart(s, k, max, c);
      StillBetween(s, s', max, s.log[k - 1], s.log[k + c - 1], s.log[k + c - 1]);
    }
  }

  /** A check passes only when the last lock is over. */
  lemma CheckInv(s: Sys, max: nat, c: nat)
    requires max >= 1 && c >= 1 && Inv(s, max, c)
    ensures Inv(Step(s, Check, max), max, c)
  {
    var s' := Step(s, Check, max);
    forall k | max <= k <= |s.log| ensures HeldUp(s', k, max, c) {
      assert HeldUp(s, k, max, c);
      assert NoneSet(s, k) ==> NoneSet(s', k);
      if s' != s && s.sets != [] && s.log[k - 1] <= s.sets[|s.sets| - 1].at {
        assert Between(s'.sets, |s.sets| - 1, max, s.log[k - 1], s.now);
      }
    }
    forall k | max <= k && k + c <= |s.log| ensures FarApart(s', k, max, c) {
      assert FarApart(s, k, max, c);
    }
  }

  lemma QuietInv(s: Sys, a: Act, max: nat, c: nat)
    requires max >= 1 && c >= 1 && Inv(s, max, c) && (a.Leaves? || a.Waits?)
    ensures Inv(Step(s, a, max), max, c)
  {
    var s' := Step(s, a, max);
    forall k | max <= k <= |s.log| ensures HeldUp(s', k, max, c) {
      assert HeldUp(s, k, max, c);
      assert NoneSet(s, k) ==> NoneSet(s', k);
      if Passed(s.sets, max, s.log[k - 1], s.now) {
        StillBetween(s, s', max, s.log[k - 1], s.now, s'.now);
      }
    }
    forall k | max <= k && k + c <= |s.log| ensures FarApart(s', k, max, c) {
      assert FarApart(s, k, max, c);
    }
  }

  lemma StepInv(s: Sys, a: Act, max: nat, c: nat)
    requires max >= 1 && c >= 1 && Inv(s, max, c) && InFlight(s) <= c
    ensures Inv(Step(s, a, max), max, c)
  {
    match a
    case Check => CheckInv(s, max, c);
    case Counts => if s.waiting >= 1 { CountsInv(s, max, c); }
    case Locks(k) => if k in s.setting { LocksInv(s, k, max, c); }
    case _ => QuietInv(s, a, max, c);
  }

  lemma {:induction false} RunInv(s: Sys, acts: seq<Act>, max: nat, c: nat)
    requires max >= 1 && c >= 1 && Inv(s, max, c) && AtMost(s, acts, max, c)
    ensures Inv(Run(s, acts, max), max, c)
    decreases |acts|
  {
    if acts != [] {
      StepInv(s, acts[0], max, c);
      RunInv(Step(s, acts[0], max), acts[1..], max, c);
    }
  }

  // ---- Different locks add up ----

  function Sum(ds: seq<nat>): nat {
    if ds == [] then 0 else Sum(ds[..|ds| - 1]) + LockSeconds(ds[|ds| - 1])
  }

  lemma {:induction false} SumJoin(a: seq<nat>, b: seq<nat>)
    ensures Sum(a + b) == Sum(a) + Sum(b)
    decreases |b|
  {
    if b == [] {
      assert a + b == a;
    } else {
      assert (a + b)[..|a + b| - 1] == a + b[..|b| - 1];
      SumJoin(a, b[..|b| - 1]);
    }
  }

  predicate Distinct(ds: seq<nat>) {
    forall i, j :: 0 <= i < j < |ds| ==> ds[i] != ds[j]
  }

  lemma {:induction false} Largest(ds: seq<nat>) returns (i: nat)
    requires ds != []
    ensures i < |ds| && forall j :: 0 <= j < |ds| ==> ds[j] <= ds[i]
    decreases |ds|
  {
    i := |ds| - 1;
    if |ds| > 1 {
      var k := Largest(ds[..|ds| - 1]);
      assert forall j :: 0 <= j < |ds| - 1 ==> ds[j] == ds[..|ds| - 1][j];
      if ds[k] > ds[i] { i := k; }
    }
  }

  /** There are no more distinct numbers than numbers below a bound of theirs. */
  lemma {:induction false} DistinctReach(ds: seq<nat>, bound: nat)
    requires Distinct(ds) && forall j :: 0 <= j < |ds| ==> ds[j] < bound
    ensures |ds| <= bound
    decreases bound
  {
    if |ds| > 0 {
      var i := Largest(ds);
      assert ds[i] < bound;
      var rest := ds[..i] + ds[i + 1..];
      forall j | 0 <= j < |rest| ensures rest[j] < bound - 1 && rest[j] == ds[if j < i then j else j + 1] {
      }
      DistinctReach(rest, bound - 1);
    }
  }

  /** n different locks last at least as long as the n shortest. */
  lemma {:induction false} DistinctLocks(ds: seq<nat>)
    requires Distinct(ds)
    ensures TotalLock(|ds|) <= Sum(ds)
    decreases |ds|
  {
    if ds != [] {
      var i := Largest(ds);
      DistinctReach(ds, ds[i] + 1);
      var rest := ds[..i] + ds[i + 1..];
      forall j | 0 <= j < |rest| ensures rest[j] == ds[if j < i then j else j + 1] {
      }
      DistinctLocks(rest);
      assert ds == ds[..i] + ([ds[i]] + ds[i + 1..]);
      SumJoin(ds[..i], [ds[i]] + ds[i + 1..]);
      SumJoin([ds[i]], ds[i + 1..]);
      SumJoin(ds[..i], ds[i + 1..]);
      assert [ds[i]][..0] == [];
      assert Sum([ds[i]]) == LockSeconds(ds[i]);
    }
  }

  /** c * m, as a repeated sum. */
  function Times(c: nat, m: nat): nat {
    if m == 0 then 0 else Times(c, m - 1) + c
  }

  lemma {:induction false} TimesIsProduct(c: nat, m: nat)
    ensures Times(c, m) == c * m
  {
    if m > 0 {
      TimesIsProduct(c, m - 1);
    }
  }

  /** The locks at positions at, of failures ds past the limit, passed one after the other before
      the n-th failure. */
  ghost predicate Passing(s: Sys, at: seq<nat>, ds: seq<nat>, n: nat, max: nat)
    requires 1 <= n <= |s.log|
  {
    && |at| == |ds| && Distinct(at)
    && (forall j :: 0 <= j < |at| ==> at[j] < |s.sets| && s.sets[at[j]].k >= max && ds[j] == s.sets[at[j]].k - max
                                      && End(s.sets[at[j]], max) <= s.log[n - 1])
    && s.log[0] + Sum(ds) <= s.log[n - 1]
  }

  lemma OneMorePasses(s: Sys, at: seq<nat>, ds: seq<nat>, n: nat, n': nat, i: nat, max: nat)
    requires 1 <= n <= n' <= |s.log| && Passing(s, at, ds, n, max) && Sorted(s.log)
    requires Between(s.sets, i, max, s.log[n - 1], s.log[n' - 1]) && s.sets[i].k >= max
    ensures Passing(s, at + [i], ds + [s.sets[i].k - max], n', max)
  {
    var ds' := ds + [s.sets[i].k - max];
    assert ds'[..|ds|] == ds && Sum(ds') == Sum(ds) + LockSeconds(s.sets[i].k - max);
    assert s.log[n - 1] <= s.log[n' - 1];
  }

  lemma {:induction false} PassedLocks(s: Sys, n: nat, m: nat, max: nat, c: nat) returns (at: seq<nat>, ds: seq<nat>)
    requires max >= 1 && c >= 1 && Inv(s, max, c) && max + Times(c, m) <= n <= |s.log|
    ensures |at| == m && Passing(s, at, ds, n, max)
    decreases m
  {
    if m == 0 {
      at, ds := [], [];
      assert s.log[0] <= s.log[n - 1];
    } else {
      var at0, ds0 := PassedLocks(s, n - c, m - 1, max, c);
      assert FarApart(s, n - c, max, c);
      var i: nat :| Between(s.sets, i, max, s.log[n - c - 1], s.log[n - 1]);
      OneMorePasses(s, at0, ds0, n - c, n, i, max);
      at, ds := at0 + [i], ds0 + [s.sets[i].k - max];
    }
  }

  lemma DifferentFailures(s: Sys, max: nat, at: seq<nat>, ds: seq<nat>)
    requires SetsOk(s, max) && Distinct(at) && |ds| == |at|
    requires forall j :: 0 <= j < |at| ==> at[j] < |s.sets| && ds[j] == s.sets[at[j]].k - max
    ensures Distinct(ds)
  {
    forall i, j | 0 <= i < j < |ds| ensures ds[i] != ds[j] {
      assert at[i] < at[j] || at[j] < at[i];
    }
  }

  /** With at most c guesses past the lock check at once, in any interleaving of checks, counts and
      lock settings, max + c * m recorded failures without success or unlock take at least the m
      shortest locks. */
  lemma OverlappingGuessesTakeTime(acts: seq<Act>, max: nat, c: nat, m: nat)
    requires max >= 1 && c >= 1 && AtMost(Start, acts, max, c) && max + Times(c, m) <= |Run(Start, acts, max).log|
    ensures var log := Run(Start, acts, max).log;
            && log[0] + TotalLock(m) <= log[|log| - 1]
            && (m >= 6 ==> log[0] + 1080 + 1800 * (m - 6) <= log[|log| - 1])
  {
    RunInv(Start, acts, max, c);
    var s := Run(Start, acts, max);
    var at, ds := PassedLocks(s, |s.log|, m, max, c);
    DifferentFailures(s, max, at, ds);
    DistinctLocks(ds);
    if m >= 6 {
      TotalLockValue(m);
    }
  }

  // ---- The bound is met, but for a constant ----

  lemma {:induction false} RunJoin(s: Sys, a: seq<Act>, b: seq<Act>, max: nat, c: nat)
    ensures Run(s, a + b, max) == Run(Run(s, a, max), b, max)
    ensures AtMost(s, a, max, c) && AtMost(Run(s, a, max), b, max, c) ==> AtMost(s, a + b, max, c)
    decreases |a|
  {
    if a == [] {
      assert a + b == b;
    } else {
      RunJoin(Step(s, a[0], max), a[1..], b, max, c);
      assert (a + b)[1..] == a[1..] + b;
    }
  }

  lemma RunFirst(s: Sys, a: Act, rest: seq<Act>, max: nat, c: nat)
    requires InFlight(s) <= c && AtMost(Step(s, a, max), rest, max, c)
    ensures Run(s, [a] + rest, max) == Run(Step(s, a, max), rest, max)
    ensures AtMost(s, [a] + rest, max, c)
  {
    assert ([a] + rest)[1..] == rest;
  }

  /** n more guesses pass the check. */
  lemma {:induction false} Checks(s: Sys, n: nat, max: nat, c: nat) returns (acts: seq<Act>)
    requires s.lockedUntil <= s.now && InFlight(s) + n <= c
    ensures Run(s, acts, max) == s.(waiting := s.waiting + n) && AtMost(s, acts, max, c)
    decreases n
  {
    if n == 0 {
      acts := [];
    } else {
      var rest := Checks(Step(s, Check, max), n - 1, max, c);
      RunFirst(s, Check, rest, max, c);
      acts := [Check] + rest;
    }
  }

  /** From s to s', n failures were counted, all at this moment. */
  ghost predicate Counted(s: Sys, s': Sys, n: nat, max: nat) {
    && s'.now == s.now && s'.lockedUntil == s.lockedUntil
    && s.log <= s'.log && |s'.log| == |s.log| + n && (forall i :: |s.log| <= i < |s'.log| ==> s'.log[i] == s.now)
    && (|s'.log| < max && s.setting == {} ==> s'.setting == {})
  }

  lemma CountedMore(s: Sys, s1: Sys, s': Sys, n: nat, max: nat)
    requires s.waiting >= 1 && s1 == Step(s, Counts, max) && Counted(s1, s', n, max)
    ensures Counted(s, s', n + 1, max)
  {
    assert s1.log == s.log + [s.now] && s1.log <= s'.log;
    forall i | |s.log| <= i < |s'.log| ensures s'.log[i] == s.now {
      assert i == |s.log| ==> s'.log[i] == s1.log[i];
    }
  }

  /** All guesses waiting are counted. */
  lemma {:induction false} AllCount(s: Sys, max: nat, c: nat) returns (acts: seq<Act>)
    requires InFlight(s) <= c
    ensures var s' := Run(s, acts, max); s'.waiting == 0 && Counted(s, s', s.waiting, max) && InFlight(s') <= c
    ensures AtMost(s, acts, max, c)
    decreases s.waiting
  {
    if s.waiting == 0 {
      acts := [];
    } else {
      var s1 := Step(s, Counts, max);
      var rest := AllCount(s1, max, c);
      RunFirst(s, Counts, rest, max, c);
      acts := [Counts] + rest;
      CountedMore(s, s1, Run(s1, rest, max), s1.waiting, max);
    }
  }

  /** All locks still to be set are set. */
  lemma {:induction false} AllLock(s: Sys, max: nat, c: nat) returns (acts: seq<Act>)
    requires InFlight(s) <= c && s.waiting == 0
    ensures var s' := Run(s, acts, max);
            && s'.now == s.now && s'.log == s.log && s'.waiting == 0 && s'.setting == {}
            && (s'.lockedUntil == s.lockedUntil || (s.setting != {} && s'.lockedUntil <= s.now + 1800))
    ensures AtMost(s, acts, max, c)
    decreases |s.setting|
  {
    if s.setting == {} {
      acts := [];
    } else {
      var k :| k in s.setting;
      var rest := AllLock(Step(s, Locks(k), max), max, c);
      RunFirst(s, Locks(k), rest, max, c);
      acts := [Locks(k)] + rest;
    }
  }

  /** n failures are recorded, the last one now, and nothing is under way. */
  ghost predicate Recorded(s: Sys, n: nat, max: nat) {
    && s.waiting == 0 && s.setting == {} && |s.log| == n
    && (n > 0 ==> s.log[0] == 0 && s.log[n - 1] == s.now) && (n == 0 ==> s.now == 0)
    && s.lockedUntil <= s.now + if n < max then 0 else 1800
  }

  /** Wait for the lock, then b guesses pass the check and fail together. */
  lemma Batch(s: Sys, n: nat, b: nat, max: nat, c: nat) returns (acts: seq<Act>)
    requires max >= 1 && 1 <= b <= c && Recorded(s, n, max)
    ensures var s' := Run(s, acts, max);
            Recorded(s', n + b, max) && s'.now == s.now + if n < max then 0 else 1800
    ensures AtMost(s, acts, max, c)
  {
    var d := if n < max then 0 else 1800;
    var s1 := Step(s, Waits(d), max);
    var checks := Checks(s1, b, max, c);
    var s2 := Run(s1, checks, max);
    var counts := AllCount(s2, max, c);
    var s3 := Run(s2, counts, max);
    var locks := AllLock(s3, max, c);
    RunJoin(s2, counts, locks, max, c);
    RunJoin(s1, checks, counts + locks, max, c);
    RunFirst(s, Waits(d), checks + (counts + locks), max, c);
    acts := [Waits(d)] + (checks + (counts + locks));
    assert n > 0 ==> s3.log[0] == s.log[0];
  }

  /** A run that records n failures, with at most c in flight, in time at. */
  ghost predicate Records(acts: seq<Act>, n: nat, max: nat, c: nat, at: nat) {
    AtMost(Start, acts, max, c) && Recorded(Run(Start, acts, max), n, max) && Run(Start, acts, max).now == at
  }

  lemma NextBatch(before: seq<Act>, n: nat, b: nat, max: nat, c: nat, at: nat) returns (acts: seq<Act>)
    requires max >= 1 && 1 <= b <= c && Records(before, n, max, c, at)
    ensures Records(acts, n + b, max, c, at + if n < max then 0 else 1800)
  {
    var batch := Batch(Run(Start, before, max), n, b, max, c);
    RunJoin(Start, before, batch, max, c);
    acts := before + batch;
  }

  lemma {:induction false} BelowTheLimit(n: nat, max: nat, c: nat) returns (acts: seq<Act>)
    requires n < max && c >= 1
    ensures Records(acts, n, max, c, 0)
    decreases n
  {
    if n == 0 {
      acts := [];
    } else {
      var before := BelowTheLimit(n - 1, max, c);
      acts := NextBatch(before, n - 1, 1, max, c, 0);
    }
  }

  /** Some run with at most c guesses in flight records max - 1 + c * (m + 1) failures, so c for
      every lock, in 1800 * m seconds: for m >= 6 at most 9720 more than the bound for m. */
  lemma {:induction false} OverlapIsReached(m: nat, max: nat, c: nat) returns (acts: seq<Act>)
    requires max >= 1 && c >= 1
    ensures Records(acts, max - 1 + Times(c, m + 1), max, c, 1800 * m)
    ensures m >= 6 ==> 1800 * m <= TotalLock(m) + 9720
    decreases m
  {
    if m >= 6 {
      TotalLockValue(m);
    }
    if m == 0 {
      var before := BelowTheLimit(max - 1, max, c);
      acts := NextBatch(before, max - 1, c, max, c, 0);
      assert Times(c, 1) == Times(c, 0) + c;
    } else {
      var before := OverlapIsReached(m - 1, max, c);
      assert Times(c, m) == Times(c, m - 1) + c;
      acts := NextBatch(before, max - 1 + Times(c, m), c, max, c, 1800 * (m - 1));
    }
  }
}
