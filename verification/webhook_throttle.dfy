/** The webhook throttle and its pruning (audit/repository.go). */
module WebhookThrottle {

  /** The IP, a bar and the action. */
  type Key = string

  /** One minute, in seconds. */
  const WINDOW: nat := 60
  const PRUNE_ABOVE: nat := 1000

  /** When each key was last dispatched. */
  type Memory = map<Key, int>

  datatype Call = Call(key: Key, at: int)

  predicate Dispatches(m: Memory, c: Call) {
    !(c.key in m && c.at - m[c.key] < WINDOW)
  }

  function Pruned(m: Memory, now: int): Memory {
    map k | k in m && now - m[k] < WINDOW :: m[k]
  }

  /** The throttle as it is: a dispatch is remembered and may trigger a pruning. */
  function Step(m: Memory, c: Call): Memory {
    if !Dispatches(m, c) then m
    else
      var m' := m[c.key := c.at];
      if |m'| > PRUNE_ABOVE then Pruned(m', c.at) else m'
  }

  /** A throttle that never forgets. */
  function Remember(m: Memory, c: Call): Memory {
    if Dispatches(m, c) then m[c.key := c.at] else m
  }

  function AfterPruning(calls: seq<Call>): Memory {
    if calls == [] then map[] else Step(AfterPruning(calls[..|calls| - 1]), calls[|calls| - 1])
  }

  function AfterAll(calls: seq<Call>): Memory {
    if calls == [] then map[] else Remember(AfterAll(calls[..|calls| - 1]), calls[|calls| - 1])
  }

  ghost predicate Sorted(calls: seq<Call>) {
    forall i, j :: 0 <= i < j < |calls| ==> calls[i].at <= calls[j].at
  }

  /** What pruning dropped could not have throttled anything any more. */
  ghost predicate Forgets(m: Memory, full: Memory, now: int) {
    && (forall k :: k in m ==> k in full && m[k] == full[k])
    && (forall k :: k in full && k !in m ==> now - full[k] >= WINDOW)
    && (forall k :: k in full ==> full[k] <= now)
  }

  lemma StepForgets(m: Memory, full: Memory, c: Call, before: int)
    requires Forgets(m, full, before) && before <= c.at
    ensures Dispatches(m, c) == Dispatches(full, c)
    ensures Forgets(Step(m, c), Remember(full, c), c.at)
  {
  }

  lemma {:induction false} AlwaysForgets(calls: seq<Call>, now: int)
    requires Sorted(calls) && (calls != [] ==> calls[|calls| - 1].at <= now)
    ensures Forgets(AfterPruning(calls), AfterAll(calls), now)
  {
    if calls != [] {
      var last := calls[|calls| - 1];
      AlwaysForgets(calls[..|calls| - 1], last.at);
      StepForgets(AfterPruning(calls[..|calls| - 1]), AfterAll(calls[..|calls| - 1]), last, last.at);
    }
  }

  /** With nondecreasing timestamps the pruned throttle answers every call exactly as one that
      never forgets. */
  lemma PruningIsInvisible(calls: seq<Call>, next: Call)
    requires Sorted(calls + [next])
    ensures Dispatches(AfterPruning(calls), next) == Dispatches(AfterAll(calls), next)
  {
    var all := calls + [next];
    assert forall i :: 0 <= i < |calls| ==> calls[i] == all[i];
    assert calls != [] ==> all[|calls| - 1].at <= all[|calls|].at;
    AlwaysForgets(calls, next.at);
  }

  // ---- Stamps that come late: the clock is read before the lock is taken ----

  /** No call's stamp is more than late seconds behind that of an earlier call. */
  ghost predicate LateBy(calls: seq<Call>, late: nat) {
    forall i, j :: 0 <= i < j < |calls| ==> calls[i].at <= calls[j].at + late
  }

  /** So far the pruned throttle has answered as the one that never forgets. */
  ghost predicate Agreed(calls: seq<Call>) {
    forall i :: 0 <= i < |calls| ==> Dispatches(AfterPruning(calls[..i]), calls[i]) == Dispatches(AfterAll(calls[..i]), calls[i])
  }

  /** Some earlier call was stamped at or after to. */
  ghost predicate Reached(calls: seq<Call>, to: int) {
    exists i :: 0 <= i < |calls| && to <= calls[i].at
  }

  lemma StillReached(calls: seq<Call>, c: Call, to: int)
    requires Reached(calls, to) || to <= c.at
    ensures Reached(calls + [c], to)
  {
    if i :| 0 <= i < |calls| && to <= calls[i].at {
      assert (calls + [c])[i] == calls[i];
    } else {
      assert (calls + [c])[|calls|] == c;
    }
  }

  /** What the pruned memory lacks was dropped at a call stamped a whole window later. */
  ghost predicate Lacks(calls: seq<Call>, m: Memory, full: Memory) {
    && (forall k :: k in m ==> k in full && m[k] == full[k])
    && (forall k :: k in full && k !in m ==> Reached(calls, full[k] + WINDOW))
  }

  lemma StepLacks(calls: seq<Call>, m: Memory, full: Memory, c: Call)
    requires Lacks(calls, m, full) && Dispatches(m, c) == Dispatches(full, c)
    ensures Lacks(calls + [c], Step(m, c), Remember(full, c))
  {
    var m', full' := Step(m, c), Remember(full, c);
    forall k | k in full' && k !in m' ensures Reached(calls + [c], full'[k] + WINDOW) {
      StillReached(calls, c, full'[k] + WINDOW);
    }
  }

  lemma {:induction false} AlwaysLacks(calls: seq<Call>)
    requires Agreed(calls)
    ensures Lacks(calls, AfterPruning(calls), AfterAll(calls))
  {
    if calls != [] {
      var init, last := calls[..|calls| - 1], calls[|calls| - 1];
      forall i | 0 <= i < |init| ensures Dispatches(AfterPruning(init[..i]), init[i]) == Dispatches(AfterAll(init[..i]), init[i]) {
        assert init[..i] == calls[..i];
      }
      AlwaysLacks(init);
      assert calls[..|init|] == init && calls == init + [last];
      StepLacks(init, AfterPruning(init), AfterAll(init), last);
    }
  }

  /** The first call that the pruned throttle answers differently: one whose key it has dropped, and
      stamped less than a minute after that key's last dispatch although an earlier call was stamped
      a minute or more after it. Then it dispatches too early, by no more than its stamp is late. */
  lemma PruningIsVisibleExactly(calls: seq<Call>, next: Call)
    requires Agreed(calls)
    ensures var (m, full) := (AfterPruning(calls), AfterAll(calls));
            && (Dispatches(m, next) != Dispatches(full, next) <==>
                  next.key in full && next.key !in m && next.at < full[next.key] + WINDOW)
            && (Dispatches(m, next) != Dispatches(full, next) ==>
                  Reached(calls, full[next.key] + WINDOW) && Dispatches(m, next))
  {
    AlwaysLacks(calls);
  }

  lemma VisibleOnlyAtTheEdge(calls: seq<Call>, next: Call, late: nat)
    requires Agreed(calls) && LateBy(calls + [next], late)
    requires Dispatches(AfterPruning(calls), next) != Dispatches(AfterAll(calls), next)
    ensures var full := AfterAll(calls);
            next.key in full && full[next.key] + WINDOW - late <= next.at < full[next.key] + WINDOW
  {
    PruningIsVisibleExactly(calls, next);
    var all, last := calls + [next], AfterAll(calls)[next.key];
    var i :| 0 <= i < |calls| && last + WINDOW <= calls[i].at;
    assert all[i] == calls[i] && all[|calls|] == next;
  }

  // ---- A run in which a late stamp makes pruning visible ----

  /** The n-th of some keys that are all different from "late". */
  function Other(n: nat): Key {
    seq(n + 5, _ => 'x')
  }

  /** "late" at 0, then n other keys a minute later. */
  function Flood(n: nat): seq<Call> {
    if n == 0 then [Call("late", 0)] else Flood(n - 1) + [Call(Other(n), WINDOW)]
  }

  /** Both throttles remember the same n + 1 keys, "late" at 0 and shorter ones. */
  ghost predicate Holds(m: Memory, n: nat) {
    |m| == n + 1 && "late" in m && m["late"] == 0 && forall k :: k in m && k != "late" ==> |k| <= n + 5
  }

  lemma {:induction false} Flooded(n: nat) returns (m: Memory)
    requires n < PRUNE_ABOVE
    ensures m == AfterPruning(Flood(n)) == AfterAll(Flood(n)) && Holds(m, n)
  {
    if n == 0 {
      m := map["late" := 0];
      FloodStart();
    } else {
      var before := Flooded(n - 1);
      var c := Call(Other(n), WINDOW);
      m := before[c.key := c.at];
      FloodStep(n, before, c);
    }
  }

  lemma FloodStart()
    ensures AfterPruning(Flood(0)) == AfterAll(Flood(0)) == map["late" := 0]
  {
    assert Flood(0)[..0] == [];
    var m: Memory := map[];
    assert Step(m, Call("late", 0)) == map["late" := 0];
  }

  lemma FloodStep(n: nat, m: Memory, c: Call)
    requires 0 < n < PRUNE_ABOVE && c == Call(Other(n), WINDOW) && Holds(m, n - 1)
    requires m == AfterPruning(Flood(n - 1)) == AfterAll(Flood(n - 1))
    ensures AfterPruning(Flood(n)) == AfterAll(Flood(n)) == m[c.key := c.at] && Holds(m[c.key := c.at], n)
  {
    assert Flood(n)[..|Flood(n)| - 1] == Flood(n - 1);
    assert |c.key| == n + 5;
    NewKeyStep(m, c);
  }

  lemma NewKeyStep(m: Memory, c: Call)
    requires c.key !in m && |m| < PRUNE_ABOVE
    ensures Step(m, c) == Remember(m, c) == m[c.key := c.at] && |Step(m, c)| == |m| + 1
  {
    OneMoreKey(m, c.key, c.at);
  }

  lemma OneMoreKey(m: Memory, k: Key, at: int)
    requires k !in m
    ensures |m[k := at]| == |m| + 1
  {
    assert m[k := at].Keys == m.Keys + {k};
  }

  /** A thousand other keys a minute after "late" was dispatched make the throttle forget it, and a
      call for it stamped one second before that minute was over is dispatched again. */
  lemma LateStampSlipsThrough() returns (calls: seq<Call>, next: Call)
    ensures LateBy(calls + [next], 1) && next == Call("late", WINDOW - 1)
    ensures Dispatches(AfterPruning(calls), next) && !Dispatches(AfterAll(calls), next)
  {
    var n := PRUNE_ABOVE;
    calls, next := Flood(n), Call("late", WINDOW - 1);
    var m := Flooded(n - 1);
    var c := Call(Other(n), WINDOW);
    assert |c.key| == n + 5;
    assert calls[..|calls| - 1] == Flood(n - 1);
    OneMoreKey(m, c.key, c.at);
    assert AfterPruning(calls) == Pruned(m[c.key := c.at], WINDOW);
    assert AfterAll(calls)["late"] == 0;
    FloodStamps(n);
  }

  lemma {:induction false} FloodStamps(n: nat)
    ensures |Flood(n)| == n + 1 && Flood(n)[0].at == 0 && forall i :: 0 < i < |Flood(n)| ==> Flood(n)[i].at == WINDOW
  {
    if n > 0 {
      FloodStamps(n - 1);
    }
  }

  // ---- How often it dispatches ----

  /** The dispatches for key between from and to, both included. */
  function CountIn(calls: seq<Call>, key: Key, from: int, to: int): nat {
    if calls == [] then 0
    else
      var (init, last) := (calls[..|calls| - 1], calls[|calls| - 1]);
      CountIn(init, key, from, to)
      + if last.key == key && from <= last.at <= to && Dispatches(AfterPruning(init), last) then 1 else 0
  }

  datatype Last = Never | At(at: int)

  /** The stamp of the last dispatch for key. */
  function LastDispatch(calls: seq<Call>, key: Key): Last {
    if calls == [] then Never
    else
      var (init, last) := (calls[..|calls| - 1], calls[|calls| - 1]);
      if last.key == key && Dispatches(AfterPruning(init), last) then At(last.at) else LastDispatch(init, key)
  }

  /** The last dispatch is remembered, or some call was stamped a whole window after it. */
  lemma {:induction false} LastIsKnown(calls: seq<Call>, key: Key)
    ensures match LastDispatch(calls, key)
            case Never => key !in AfterPruning(calls)
            case At(at) => (key in AfterPruning(calls) && AfterPruning(calls)[key] == at) || (key !in AfterPruning(calls) && Reached(calls, at + WINDOW))
  {
    if calls != [] {
      var init, last := calls[..|calls| - 1], calls[|calls| - 1];
      LastIsKnown(init, key);
      assert calls == init + [last];
      match LastDispatch(calls, key)
      case Never =>
      case At(at) => if Reached(init, at + WINDOW) || at + WINDOW <= last.at { StillReached(init, last, at + WINDOW); }
    }
  }

  lemma NextIsApart(calls: seq<Call>, c: Call, late: nat)
    requires LateBy(calls + [c], late) && Dispatches(AfterPruning(calls), c) && LastDispatch(calls, c.key).At?
    ensures LastDispatch(calls, c.key).at + WINDOW - late <= c.at
  {
    LastIsKnown(calls, c.key);
    var at := LastDispatch(calls, c.key).at;
    if i :| 0 <= i < |calls| && at + WINDOW <= calls[i].at {
      assert (calls + [c])[i] == calls[i] && (calls + [c])[|calls|] == c;
    }
  }

  lemma {:induction false} DispatchesAreApart(calls: seq<Call>, key: Key, from: int, to: int, late: nat, n: nat)
    requires LateBy(calls, late) && late < WINDOW && from <= to && n == CountIn(calls, key, from, to)
    ensures n > 0 ==> LastDispatch(calls, key).At? && from + Times(WINDOW - late, n - 1) <= LastDispatch(calls, key).at
                      && from + Times(WINDOW - late, n - 1) <= to
  {
    if calls != [] {
      var init, last := calls[..|calls| - 1], calls[|calls| - 1];
      assert calls == init + [last];
      forall i, j | 0 <= i < j < |init| ensures init[i].at <= init[j].at + late {
        assert calls[i] == init[i] && calls[j] == init[j];
      }
      DispatchesAreApart(init, key, from, to, late, CountIn(init, key, from, to));
      if last.key == key && Dispatches(AfterPruning(init), last) && LastDispatch(init, key).At? {
        NextIsApart(init, last, late);
      }
    }
  }

  /** w * n, as a repeated sum. */
  function Times(w: nat, n: nat): nat {
    if n == 0 then 0 else Times(w, n - 1) + w
  }

  lemma {:induction false} TimesIsProduct(w: nat, n: nat)
    ensures Times(w, n) == w * n
  {
    if n > 0 {
      TimesIsProduct(w, n - 1);
    }
  }

  lemma {:induction false} TimesGrows(w: nat, m: nat, n: nat)
    requires m <= n
    ensures Times(w, m) <= Times(w, n)
    decreases n
  {
    if m < n {
      TimesGrows(w, m, n - 1);
    }
  }

  lemma AtMostQuotient(w: nat, n: nat, x: nat)
    requires w > 0 && Times(w, n) <= x
    ensures n <= x / w
  {
    var q := x / w;
    TimesIsProduct(w, q);
    assert x < w * q + w;
    TimesGrows(w, q + 1, if q + 1 <= n then n else q + 1);
  }

  /** For one key, when no stamp is more than late seconds behind an earlier one, any span of that
      many seconds sees at most one dispatch for every 60 - late of them, plus one; so one a
      minute, plus one, when the stamps come in order. */
  lemma AtMostOnePerMinute(calls: seq<Call>, key: Key, from: int, seconds: nat, late: nat)
    requires LateBy(calls, late) && late < 60
    ensures CountIn(calls, key, from, from + seconds) <= seconds / (60 - late) + 1
  {
    var n := CountIn(calls, key, from, from + seconds);
    DispatchesAreApart(calls, key, from, from + seconds, late, n);
    AtMostQuotient(WINDOW - late, if n > 0 then n - 1 else 0, seconds);
  }

  class Throttle {
    var last: Memory

    constructor ()
      ensures last == map[]
    {
      last := map[];
    }

    method ShouldDispatchWebhook(key: Key, now: int) returns (fire: bool)
      modifies this
      ensures fire == Dispatches(old(last), Call(key, now)) && last == Step(old(last), Call(key, now))
      // on the memory
      ensures fire <==> key !in old(last) || now - old(last)[key] >= 60
      ensures !fire ==> last == old(last)
      ensures fire ==>
                var full := old(last)[key := now];
                forall k :: (k in last <==> k in full && (|full| > 1000 ==> now - full[k] < 60)) && (k in last ==> last[k] == full[k])
    {
      if key in last && now - last[key] < WINDOW {
        return false;
      }
      last := last[key := now];
      if |last| > PRUNE_ABOVE {
        ghost var full := last;
        var todo := last.Keys;
        while todo != {}
          invariant todo <= full.Keys
          invariant last == map k | k in full && (k in todo || now - full[k] < WINDOW) :: full[k]
          decreases todo
        {
          var k :| k in todo;
          if now - last[k] >= WINDOW {
            last := last - {k};
          }
          todo := todo - {k};
        }
      }
      fire := true;
    }
  }
}
