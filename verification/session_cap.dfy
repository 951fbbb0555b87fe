/** How many sessions a user can have (auth/service.go, session/repository.go): evictions overlap
    each other, and rotations commit while they are under way. */
module SessionCaps {
  import opened Names
  import opened SessionTable
  import opened SessionRuns
  import opened SessionTheorems

  /** The logins of u that have evicted and not yet inserted. */
  function Pending(s: Sys, u: UserId): set<nat> {
    set p | p in s.open && s.open[p] == Inserting(u)
  }

  predicate Evicts(s: Sys, p: nat, u: UserId) {
    p in s.open && s.open[p].Landing? && s.open[p].job.Excess? && s.open[p].job.u == u
  }

  /** The logins of u that are evicting. */
  function Evicting(s: Sys, u: UserId): set<nat> {
    set p | p in s.open && Evicts(s, p, u)
  }

  /** The refreshes of u accepted from mark on. */
  function Refreshes(accepts: seq<Accept>, mark: nat, u: UserId): nat {
    if |accepts| <= mark then 0
    else Refreshes(accepts[..|accepts| - 1], mark, u) + if accepts[|accepts| - 1].user == u then 1 else 0
  }

  /** The rotations of u that have committed since p's eviction took its snapshot. */
  function Meanwhile(s: Sys, p: nat, u: UserId): nat
    requires Evicts(s, p, u)
  {
    Refreshes(s.accepts, s.open[p].mark, u)
  }

  /** The eviction o will leave row h. */
  predicate Leaves(o: Open, h: Hash) {
    o.Landing? && o.job.Excess? && (h !in o.seen || h in o.job.kept)
  }

  predicate AllLeave(open: map<nat, Open>, ws: set<nat>, h: Hash) {
    forall w :: w in ws ==> w in open && Leaves(open[w], h)
  }

  /** The rows that stay whatever the evictions in ws do. */
  function Common(rows: set<Hash>, open: map<nat, Open>, ws: set<nat>): set<Hash> {
    set h | h in rows && AllLeave(open, ws, h)
  }

  /** Rows that the evictions in ws will leave, logins past their eviction, and the logins in ws. */
  ghost predicate Bounded(s: Sys, u: UserId, ws: set<nat>, w: nat, cap: nat, m: nat)
    requires (forall x :: x in ws ==> Evicts(s, x, u)) && w in ws && cap >= 1
  {
    |Common(Standing(s.rows, u), s.open, ws)| + |Pending(s, u)| + |ws| <= cap - 1 + m + Meanwhile(s, w, u)
  }

  ghost predicate CapInv(s: Sys, u: UserId, cap: nat, m: nat, r: nat)
    requires cap >= 1
  {
    && |Standing(s.rows, u)| + |Pending(s, u)| <= cap - 1 + m + r
    && forall ws, w {:trigger Bounded(s, u, ws, w, cap, m)} :: ws <= Evicting(s, u) && w in ws ==> Bounded(s, u, ws, w, cap, m)
  }

  /** At no moment are more than m logins of u under way, counted from the snapshot of their eviction
      to their insertion, and during no eviction of u more than r of u's rotations commit. */
  ghost predicate InFlight(s: Sys, u: UserId, m: nat, r: nat) {
    && |Pending(s, u)| + |Evicting(s, u)| <= m
    && forall w :: Evicts(s, w, u) ==> Meanwhile(s, w, u) <= r
  }

  /** ok holds at every moment of the run. */
  ghost predicate Throughout(s: Sys, acts: seq<Act>, cap: nat, ok: Sys -> bool) {
    forall i :: 0 <= i <= |acts| ==> ok(Run(s, acts[..i], cap))
  }

  ghost predicate AlwaysInFlight(s: Sys, acts: seq<Act>, cap: nat, m: nat, r: nat, u: UserId) {
    Throughout(s, acts, cap, x => InFlight(x, u, m, r))
  }

  lemma Joined(s: Sys, a: seq<Act>, t: Sys, b: seq<Act>, cap: nat, ok: Sys -> bool)
    requires Throughout(s, a, cap, ok) && t == Run(s, a, cap) && Throughout(t, b, cap, ok)
    ensures Throughout(s, a + b, cap, ok)
  {
    forall i | 0 <= i <= |a + b| ensures ok(Run(s, (a + b)[..i], cap)) {
      if i <= |a| {
        assert (a + b)[..i] == a[..i];
      } else {
        assert (a + b)[..i] == a + b[..i - |a|];
        RunJoin(s, a, b[..i - |a|], cap);
      }
    }
  }

  lemma RunStep(s: Sys, a: Act, rest: seq<Act>, cap: nat)
    ensures Run(s, [a] + rest, cap) == Run(Step(s, a, cap), rest, cap)
  {
    assert ([a] + rest)[1..] == rest;
  }

  lemma FirstThen(s: Sys, a: Act, s1: Sys, rest: seq<Act>, cap: nat, ok: Sys -> bool)
    requires s1 == Step(s, a, cap) && ok(s) && Throughout(s1, rest, cap, ok)
    ensures Throughout(s, [a] + rest, cap, ok)
  {
    forall i | 0 <= i <= |rest| + 1 ensures ok(Run(s, ([a] + rest)[..i], cap)) {
      if i == 0 {
        assert ([a] + rest)[..0] == [];
      } else {
        assert ([a] + rest)[..i] == [a] + rest[..i - 1];
        RunStep(s, a, rest[..i - 1], cap);
      }
    }
  }

  lemma ThenRest(s: Sys, acts: seq<Act>, s1: Sys, cap: nat, ok: Sys -> bool)
    requires acts != [] && s1 == Step(s, acts[0], cap) && Throughout(s, acts, cap, ok)
    ensures ok(s) && ok(s1) && Throughout(s1, acts[1..], cap, ok)
  {
    assert acts[..0] == [] && Run(s, [], cap) == s;
    forall i | 0 <= i <= |acts| - 1 ensures ok(Run(s1, acts[1..][..i], cap)) {
      assert acts[..i + 1] == [acts[0]] + acts[1..][..i];
      RunStep(s, acts[0], acts[1..][..i], cap);
    }
    assert acts[1..][..0] == [] && Run(s1, [], cap) == s1;
  }

  // ---- Sets ----

  lemma {:induction false} Subset<T>(a: set<T>, b: set<T>)
    requires a <= b
    ensures |a| <= |b|
  {
    if x :| x in a {
      Subset(a - {x}, b - {x});
    }
  }

  // ---- Steps that add no row and open no eviction ----

  /** Fewer rows of u stand and fewer of its logins are under way; those that are, are as they were. */
  ghost predicate Calmer(s: Sys, s': Sys, u: UserId) {
    && Standing(s'.rows, u) <= Standing(s.rows, u) && Pending(s', u) <= Pending(s, u)
    && s'.accepts == s.accepts
    && forall w :: Evicts(s', w, u) ==> Evicts(s, w, u) && s'.open[w] == s.open[w]
  }

  lemma CalmerBounded(s: Sys, s': Sys, u: UserId, ws: set<nat>, w: nat, cap: nat, m: nat)
    requires cap >= 1 && Calmer(s, s', u) && w in ws
    requires forall x :: x in ws ==> Evicts(s', x, u)
    requires Bounded(s, u, ws, w, cap, m)
    ensures Bounded(s', u, ws, w, cap, m)
  {
    Subset(Common(Standing(s'.rows, u), s'.open, ws), Common(Standing(s.rows, u), s.open, ws));
    Subset(Pending(s', u), Pending(s, u));
  }

  lemma CalmerCap(s: Sys, s': Sys, u: UserId, cap: nat, m: nat, r: nat)
    requires cap >= 1 && CapInv(s, u, cap, m, r) && Calmer(s, s', u)
    ensures CapInv(s', u, cap, m, r)
  {
    Subset(Standing(s'.rows, u), Standing(s.rows, u));
    Subset(Pending(s', u), Pending(s, u));
    forall ws, w | ws <= Evicting(s', u) && w in ws ensures Bounded(s', u, ws, w, cap, m) {
      forall x | x in ws ensures x in Evicting(s, u) {
        assert x in Evicting(s', u);
      }
      CalmerBounded(s, s', u, ws, w, cap, m);
    }
  }

  // ---- An eviction of u begins ----

  lemma ScanBounded(s: Sys, s': Sys, p: nat, u: UserId, kept: set<Hash>, ws: set<nat>, w: nat, cap: nat, m: nat, r: nat)
    requires cap >= 1 && CapInv(s, u, cap, m, r) && InFlight(s', u, m, r) && (forall h :: h in s.rows ==> h in s.chain)
    requires s' == DoScan(s, p, Excess(u, kept), cap) && s' != s && ws <= Evicting(s', u) && w in ws
    ensures Bounded(s', u, ws, w, cap, m)
  {
    assert Pending(s', u) == Pending(s, u);
    if p in ws {
      assert Common(Standing(s'.rows, u), s'.open, ws) <= kept by {
        forall h | h in Common(Standing(s'.rows, u), s'.open, ws) ensures h in kept {
          assert h !in s'.open[p].seen || h in s'.open[p].job.kept;
        }
      }
      Subset(Common(Standing(s'.rows, u), s'.open, ws), kept);
      Subset(ws, Evicting(s', u));
    } else {
      forall x | x in ws ensures x in Evicting(s, u) && s'.open[x] == s.open[x] {
        assert x in Evicting(s', u);
      }
      assert Common(Standing(s'.rows, u), s'.open, ws) == Common(Standing(s.rows, u), s.open, ws);
      assert Bounded(s, u, ws, w, cap, m);
    }
  }

  lemma ScanCap(s: Sys, p: nat, u: UserId, kept: set<Hash>, cap: nat, m: nat, r: nat)
    requires cap >= 1 && CapInv(s, u, cap, m, r) && (forall h :: h in s.rows ==> h in s.chain)
    requires InFlight(DoScan(s, p, Excess(u, kept), cap), u, m, r)
    ensures CapInv(DoScan(s, p, Excess(u, kept), cap), u, cap, m, r)
  {
    var s' := DoScan(s, p, Excess(u, kept), cap);
    if s' != s {
      assert Pending(s', u) == Pending(s, u);
      forall ws, w | ws <= Evicting(s', u) && w in ws ensures Bounded(s', u, ws, w, cap, m) {
        ScanBounded(s, s', p, u, kept, ws, w, cap, m, r);
      }
    }
  }

  // ---- An eviction of u lands ----

  /** What p's landing leaves is what it would leave together with the others. */
  lemma CommonLanded(rows: set<Hash>, open: map<nat, Open>, p: nat, o: Open, open': map<nat, Open>, ws: set<nat>)
    requires p in open && open[p] == o && o.Landing? && o.job.Excess? && p !in ws
    requires forall w :: w in ws ==> w in open && w in open' && open'[w] == open[w]
    ensures Common(rows - (o.seen - o.job.kept), open', ws) == Common(rows, open, ws + {p})
  {
    forall h | h in rows ensures AllLeave(open, ws + {p}, h) <==> AllLeave(open', ws, h) && Leaves(o, h) {
      if AllLeave(open, ws + {p}, h) {
        assert p in ws + {p};
        forall w | w in ws ensures w in open' && Leaves(open'[w], h) {
          assert w in ws + {p};
        }
      }
    }
  }

  lemma LandBounded(s: Sys, s': Sys, p: nat, u: UserId, ws: set<nat>, w: nat, cap: nat, m: nat)
    requires cap >= 1 && Evicts(s, p, u) && p !in ws && w in ws && s'.accepts == s.accepts
    requires s'.open == s.open[p := Inserting(u)] && (forall x :: x in ws ==> Evicts(s, x, u))
    requires Standing(s'.rows, u) == Standing(s.rows, u) - (s.open[p].seen - s.open[p].job.kept)
    requires Bounded(s, u, ws + {p}, w, cap, m)
    ensures (forall x :: x in ws ==> Evicts(s', x, u)) && Bounded(s', u, ws, w, cap, m)
  {
    assert Pending(s', u) == Pending(s, u) + {p};
    CommonLanded(Standing(s.rows, u), s.open, p, s.open[p], s'.open, ws);
    assert |ws + {p}| == |ws| + 1;
  }

  lemma LandCap(s: Sys, p: nat, u: UserId, cap: nat, m: nat, r: nat)
    requires cap >= 1 && CapInv(s, u, cap, m, r) && Evicts(s, p, u) && Free(s.open, s.open[p].targets)
    requires AllOpenOk(s.open, s.rows, s.chain, s.now) && InFlight(s, u, m, r)
    ensures CapInv(DoLand(s, p), u, cap, m, r)
  {
    var s' := DoLand(s, p);
    LandsExactlyFrom(s, p, cap);
    LandedTotal(s, s', p, u, cap, m, r);
    forall ws, w | ws <= Evicting(s', u) && w in ws ensures Bounded(s', u, ws, w, cap, m) {
      forall x | x in ws ensures x != p && x in Evicting(s, u) {
        assert x in Evicting(s', u);
      }
      assert ws + {p} <= Evicting(s, u) && w in ws + {p};
      LandBounded(s, s', p, u, ws, w, cap, m);
    }
  }

  lemma LandedTotal(s: Sys, s': Sys, p: nat, u: UserId, cap: nat, m: nat, r: nat)
    requires cap >= 1 && CapInv(s, u, cap, m, r) && Evicts(s, p, u) && Meanwhile(s, p, u) <= r
    requires s'.open == s.open[p := Inserting(u)]
    requires Standing(s'.rows, u) == Standing(s.rows, u) - (s.open[p].seen - s.open[p].job.kept)
    ensures |Standing(s'.rows, u)| + |Pending(s', u)| <= cap - 1 + m + r
  {
    assert {p} <= Evicting(s, u) && Bounded(s, u, {p}, p, cap, m);
    LandedOne(s, s', p, u);
  }

  lemma LandedOne(s: Sys, s': Sys, p: nat, u: UserId)
    requires Evicts(s, p, u) && s'.open == s.open[p := Inserting(u)]
    requires Standing(s'.rows, u) == Standing(s.rows, u) - (s.open[p].seen - s.open[p].job.kept)
    ensures |Pending(s', u)| == |Pending(s, u)| + 1
    ensures Common(Standing(s.rows, u), s.open, {p}) == Standing(s'.rows, u)
  {
    assert Pending(s', u) == Pending(s, u) + {p};
    CommonLanded(Standing(s.rows, u), s.open, p, s.open[p], s'.open, {});
    assert {} + {p} == {p} && Common(Standing(s'.rows, u), s'.open, {}) == Standing(s'.rows, u);
  }

  // ---- A login of u inserts ----

  lemma CommonCreated(rows: set<Hash>, open: map<nat, Open>, open': map<nat, Open>, h: Hash, ws: set<nat>)
    requires h !in rows && AllLeave(open', ws, h)
    requires forall w :: w in ws ==> w in open && w in open' && open'[w] == open[w]
    ensures |Common(rows + {h}, open', ws)| == |Common(rows, open, ws)| + 1
  {
    forall x | x in rows ensures AllLeave(open', ws, x) <==> AllLeave(open, ws, x) {
    }
    assert Common(rows + {h}, open', ws) == Common(rows, open, ws) + {h};
  }

  lemma CreateBounded(s: Sys, s': Sys, p: nat, h: Hash, u: UserId, ws: set<nat>, w: nat, cap: nat, m: nat)
    requires cap >= 1 && p in Pending(s, u) && s'.open == s.open - {p} && s'.accepts == s.accepts
    requires Standing(s'.rows, u) == Standing(s.rows, u) + {h} && h !in Standing(s.rows, u) && w in ws
    requires forall x :: x in ws ==> Evicts(s, x, u) && h !in s.open[x].seen
    requires Bounded(s, u, ws, w, cap, m)
    ensures (forall x :: x in ws ==> Evicts(s', x, u)) && Bounded(s', u, ws, w, cap, m)
  {
    assert Pending(s', u) == Pending(s, u) - {p};
    CommonCreated(Standing(s.rows, u), s.open, s'.open, h, ws);
  }

  lemma CreateSets(s: Sys, p: nat, h: Hash, d: Device, timeout: nat, u: UserId)
    requires p in Pending(s, u) && h !in s.chain && h !in s.rows
    ensures var s' := DoCreate(s, p, h, d, timeout);
            && Standing(s'.rows, u) == Standing(s.rows, u) + {h} && h !in Standing(s.rows, u)
            && s'.open == s.open - {p} && s'.accepts == s.accepts
            && |Pending(s', u)| == |Pending(s, u)| - 1 && |Standing(s'.rows, u)| == |Standing(s.rows, u)| + 1
  {
    var s' := DoCreate(s, p, h, d, timeout);
    StandingAfterCreate(s.rows, s.now, h, u, d, s.now + timeout, u);
    assert Pending(s', u) == Pending(s, u) - {p};
  }

  lemma StillEvicting(s: Sys, s': Sys, p: nat, u: UserId, ws: set<nat>)
    requires s'.open == s.open - {p} && ws <= Evicting(s', u)
    ensures ws <= Evicting(s, u) && forall x :: x in ws ==> Evicts(s, x, u)
  {
    forall x | x in ws ensures x in Evicting(s, u) {
      assert x in Evicting(s', u);
    }
  }

  lemma CreateCap(s: Sys, p: nat, h: Hash, d: Device, timeout: nat, u: UserId, cap: nat, m: nat, r: nat)
    requires cap >= 1 && CapInv(s, u, cap, m, r) && AllOpenOk(s.open, s.rows, s.chain, s.now)
    requires p in Pending(s, u) && h !in s.chain && h !in s.rows
    ensures CapInv(DoCreate(s, p, h, d, timeout), u, cap, m, r)
  {
    var s' := DoCreate(s, p, h, d, timeout);
    CreateSets(s, p, h, d, timeout, u);
    forall ws, w | ws <= Evicting(s', u) && w in ws ensures Bounded(s', u, ws, w, cap, m) {
      StillEvicting(s, s', p, u, ws);
      forall x | x in ws ensures h !in s.open[x].seen {
        assert OpenOk(s.open[x], s.rows, s.chain, s.now);
      }
      assert Bounded(s, u, ws, w, cap, m);
      CreateBounded(s, s', p, h, u, ws, w, cap, m);
    }
  }

  // ---- A rotation commits ----

  lemma RefreshesGrown(accepts: seq<Accept>, a: Accept, mark: nat, u: UserId)
    requires mark <= |accepts|
    ensures Refreshes(accepts + [a], mark, u) == Refreshes(accepts, mark, u) + if a.user == u then 1 else 0
  {
    assert (accepts + [a])[..|accepts|] == accepts;
  }

  lemma CommonRotated(rows: set<Hash>, open: map<nat, Open>, open': map<nat, Open>, h: Hash, next: Hash, ws: set<nat>)
    requires forall w :: w in ws ==> w in open && w in open' && open'[w] == open[w]
    ensures |Common(rows - {h} + {next}, open', ws)| <= |Common(rows, open, ws)| + 1
  {
    forall x | x in rows ensures AllLeave(open', ws, x) <==> AllLeave(open, ws, x) {
    }
    Subset(Common(rows - {h} + {next}, open', ws), Common(rows, open, ws) + {next});
  }

  lemma CommitBounded(s: Sys, s': Sys, h: Hash, next: Hash, u: UserId, ws: set<nat>, w: nat, cap: nat, m: nat)
    requires cap >= 1 && w in ws && Standing(s'.rows, u) == Standing(s.rows, u) - {h} + {next} && Pending(s', u) == Pending(s, u)
    requires forall x :: x in ws ==> Evicts(s, x, u) && Evicts(s', x, u) && s'.open[x] == s.open[x]
    requires Meanwhile(s', w, u) == Meanwhile(s, w, u) + 1
    requires Bounded(s, u, ws, w, cap, m)
    ensures Bounded(s', u, ws, w, cap, m)
  {
    CommonRotated(Standing(s.rows, u), s.open, s'.open, h, next, ws);
  }

  lemma CommitSets(s: Sys, p: nat, next: Hash, d: Device, u: UserId)
    requires AllOpenOk(s.open, s.rows, s.chain, s.now) && (forall x :: x in s.rows ==> x in s.chain)
    requires DoCommit(s, p, next, d) != s && s.rows[s.open[p].hash].user == u
    ensures var (s', h) := (DoCommit(s, p, next, d), s.open[p].hash);
            && Standing(s'.rows, u) == Standing(s.rows, u) - {h} + {next} && |Standing(s'.rows, u)| == |Standing(s.rows, u)|
            && Pending(s', u) == Pending(s, u) && s'.open == s.open - {p}
            && |s'.accepts| == |s.accepts| + 1 && s'.accepts[..|s.accepts|] == s.accepts && s'.accepts[|s.accepts|].user == u
  {
    var s', h := DoCommit(s, p, next, d), s.open[p].hash;
    assert HoldsAt(s.open, p, h);
    HeldStands(s, p, h);
    RotatedRows(s.rows, s.open[p].began, h, next, d);
    RotationKeepsTheCount(s.rows, s.open[p].began, h, next, d, u);
    forall x ensures x in Standing(s'.rows, u) <==> x in Standing(s.rows, u) - {h} + {next} {
    }
  }

  lemma CommitCap(s: Sys, p: nat, next: Hash, d: Device, u: UserId, cap: nat, m: nat, r: nat)
    requires cap >= 1 && CapInv(s, u, cap, m, r) && AllOpenOk(s.open, s.rows, s.chain, s.now) && AllSinceOk(s)
    requires (forall x :: x in s.rows ==> x in s.chain) && DoCommit(s, p, next, d) != s && s.rows[s.open[p].hash].user == u
    ensures CapInv(DoCommit(s, p, next, d), u, cap, m, r)
  {
    var s', h := DoCommit(s, p, next, d), s.open[p].hash;
    CommitSets(s, p, next, d, u);
    forall ws, w | ws <= Evicting(s', u) && w in ws ensures Bounded(s', u, ws, w, cap, m) {
      StillEvicting(s, s', p, u, ws);
      forall x | x in ws ensures Evicts(s', x, u) {
        assert x in Evicting(s', u);
      }
      assert SinceOk(s.open[w], s.chain, s.accepts, |s.logins|) && Bounded(s, u, ws, w, cap, m);
      assert Meanwhile(s', w, u) == Meanwhile(s, w, u) + 1;
      CommitBounded(s, s', h, next, u, ws, w, cap, m);
    }
  }

  // ---- Every step ----

  /** A step of somebody else's, or one that only revokes, deletes or ends. */
  lemma OtherIsCalmer(s: Sys, a: Act, cap: nat, u: UserId)
    requires Inv(s)
    requires a.Scans? ==> !(a.job.Excess? && a.job.u == u)
    requires a.Lands? ==> !Evicts(s, a.p, u)
    requires a.Creates? ==> a.p !in Pending(s, u)
    requires a.Commits? ==> Step(s, a, cap) == s
    ensures Calmer(s, Step(s, a, cap), u)
  {
    match a
    case Scans(p, job) => ScanCalmer(s, p, job, cap, u);
    case Lands(p) => LandCalmer(s, p, u);
    case Creates(p, h, d, timeout) => CreateCalmer(s, p, h, d, timeout, u);
    case Begins(_, _) => RotationCalmer(s, a, cap, u);
    case Locks(_) => RotationCalmer(s, a, cap, u);
    case Approves(_, _, _) => RotationCalmer(s, a, cap, u);
    case Commits(_, _, _) =>
    case LogsOut(_) => OneRowCalmer(s, a, cap, u);
    case RevokesByID(_, _) => OneRowCalmer(s, a, cap, u);
    case _ => QuietCalmer(s, a, cap, u);
  }

  /** No row of u comes to stand, and of what is open only p's transaction changes, into nothing that
      counts for u. */
  lemma OneChange(s: Sys, s': Sys, p: nat, u: UserId)
    requires Standing(s'.rows, u) <= Standing(s.rows, u) && s'.accepts == s.accepts && OnlyAt(s.open, s'.open, p)
    requires p in s'.open ==> s'.open[p] != Inserting(u) || (p in s.open && s.open[p] == s'.open[p])
    requires Evicts(s', p, u) ==> p in s.open && s.open[p] == s'.open[p]
    ensures Calmer(s, s', u)
  {
    forall q | q in Pending(s', u) ensures q in Pending(s, u) {
    }
  }

  lemma QuietCalmer(s: Sys, a: Act, cap: nat, u: UserId)
    requires a.Purges? || a.GivesUp? || a.UsesOidc? || a.Waits?
    ensures Calmer(s, Step(s, a, cap), u)
  {
    var s' := Step(s, a, cap);
    match a
    case Purges(p) => OneChange(s, s', p, u);
    case GivesUp(p) => OneChange(s, s', p, u);
    case _ => OnlyRows(s, s', u);
  }

  lemma OneRowCalmer(s: Sys, a: Act, cap: nat, u: UserId)
    requires a.LogsOut? || a.RevokesByID?
    ensures Calmer(s, Step(s, a, cap), u)
  {
    if a.LogsOut? {
      LogoutStanding(s.rows, s.now, a.h, u);
    } else {
      RevokeByIDStanding(s.rows, s.now, a.h, a.u, u);
    }
    OnlyRows(s, Step(s, a, cap), u);
  }

  lemma OnlyRows(s: Sys, s': Sys, u: UserId)
    requires Standing(s'.rows, u) <= Standing(s.rows, u) && s'.accepts == s.accepts && s'.open == s.open
    ensures Calmer(s, s', u)
  {
  }

  lemma LogoutStanding(t: Table, now: nat, h: Hash, u: UserId)
    ensures Standing(Logout(t, now, h), u) <= Standing(t, u)
  {
  }

  lemma RevokeByIDStanding(t: Table, now: nat, h: Hash, v: UserId, u: UserId)
    ensures Standing(RevokeByID(t, now, h, v), u) <= Standing(t, u)
  {
  }

  lemma ScanCalmer(s: Sys, p: nat, job: Job, cap: nat, u: UserId)
    requires !(job.Excess? && job.u == u)
    ensures Calmer(s, DoScan(s, p, job, cap), u)
  {
    OneChange(s, DoScan(s, p, job, cap), p, u);
  }

  lemma RotationCalmer(s: Sys, a: Act, cap: nat, u: UserId)
    requires a.Begins? || a.Locks? || a.Approves?
    ensures Calmer(s, Step(s, a, cap), u)
  {
    RotationFrame(s, a, a.p, cap);
    OneChange(s, Step(s, a, cap), a.p, u);
  }

  lemma LandCalmer(s: Sys, p: nat, u: UserId)
    requires Inv(s) && !Evicts(s, p, u)
    ensures Calmer(s, DoLand(s, p), u)
  {
    var s' := DoLand(s, p);
    LandFrame(s, p);
    AllTargetsOk(s);
    LandingOnlyRevokes(s, p);
    FewerStand(s.rows, s'.rows, u);
    OneChange(s, s', p, u);
  }

  lemma FewerStand(t: Table, t': Table, u: UserId)
    requires OnlyRevokes(t, t')
    ensures Standing(t', u) <= Standing(t, u)
  {
  }

  lemma CreateCalmer(s: Sys, p: nat, h: Hash, d: Device, timeout: nat, u: UserId)
    requires Inv(s) && p !in Pending(s, u)
    ensures Calmer(s, DoCreate(s, p, h, d, timeout), u)
  {
    var s' := DoCreate(s, p, h, d, timeout);
    if s' != s {
      assert h !in s.rows;
      StandingAfterCreate(s.rows, s.now, h, s.open[p].u, d, s.now + timeout, u);
      OneChange(s, s', p, u);
    }
  }

  lemma OtherCommitSets(s: Sys, p: nat, next: Hash, d: Device, u: UserId)
    requires AllOpenOk(s.open, s.rows, s.chain, s.now) && (forall x :: x in s.rows ==> x in s.chain)
    requires DoCommit(s, p, next, d) != s && s.rows[s.open[p].hash].user != u
    ensures var s' := DoCommit(s, p, next, d);
            && Standing(s'.rows, u) == Standing(s.rows, u) && Pending(s', u) == Pending(s, u) && s'.open == s.open - {p}
            && |s'.accepts| == |s.accepts| + 1 && s'.accepts[..|s.accepts|] == s.accepts && s'.accepts[|s.accepts|].user != u
  {
    var s', h := DoCommit(s, p, next, d), s.open[p].hash;
    assert HoldsAt(s.open, p, h);
    HeldStands(s, p, h);
    RotatedRows(s.rows, s.open[p].began, h, next, d);
    forall x ensures x in Standing(s'.rows, u) <==> x in Standing(s.rows, u) {
    }
  }

  lemma CommonSame(rows: set<Hash>, open: map<nat, Open>, open': map<nat, Open>, ws: set<nat>)
    requires forall w :: w in ws ==> w in open && w in open' && open'[w] == open[w]
    ensures Common(rows, open', ws) == Common(rows, open, ws)
  {
    forall x | x in rows ensures AllLeave(open', ws, x) <==> AllLeave(open, ws, x) {
    }
  }

  /** The commit of another user's rotation. */
  lemma OtherCommitCap(s: Sys, p: nat, next: Hash, d: Device, u: UserId, cap: nat, m: nat, r: nat)
    requires cap >= 1 && CapInv(s, u, cap, m, r) && AllOpenOk(s.open, s.rows, s.chain, s.now) && AllSinceOk(s)
    requires (forall x :: x in s.rows ==> x in s.chain) && DoCommit(s, p, next, d) != s && s.rows[s.open[p].hash].user != u
    ensures CapInv(DoCommit(s, p, next, d), u, cap, m, r)
  {
    var s' := DoCommit(s, p, next, d);
    OtherCommitSets(s, p, next, d, u);
    forall ws, w | ws <= Evicting(s', u) && w in ws ensures Bounded(s', u, ws, w, cap, m) {
      StillEvicting(s, s', p, u, ws);
      forall x | x in ws ensures Evicts(s', x, u) {
        assert x in Evicting(s', u);
      }
      assert SinceOk(s.open[w], s.chain, s.accepts, |s.logins|) && Bounded(s, u, ws, w, cap, m);
      assert Meanwhile(s', w, u) == Meanwhile(s, w, u);
      CommonSame(Standing(s.rows, u), s.open, s'.open, ws);
    }
  }

  lemma StepCap(s: Sys, a: Act, cap: nat, m: nat, r: nat, u: UserId)
    requires Inv(s) && AllSinceOk(s) && cap >= 1 && CapInv(s, u, cap, m, r)
    requires InFlight(s, u, m, r) && InFlight(Step(s, a, cap), u, m, r)
    ensures CapInv(Step(s, a, cap), u, cap, m, r)
  {
    if a.Scans? && a.job.Excess? && a.job.u == u {
      ScanCap(s, a.p, u, a.job.kept, cap, m, r);
    } else if a.Lands? && Evicts(s, a.p, u) {
      if Free(s.open, s.open[a.p].targets) { LandCap(s, a.p, u, cap, m, r); }
    } else if a.Creates? && a.p in Pending(s, u) {
      if a.h !in s.chain { CreateCap(s, a.p, a.h, a.d, a.timeout, u, cap, m, r); }
    } else if a.Commits? && Step(s, a, cap) != s {
      if s.rows[s.open[a.p].hash].user == u {
        CommitCap(s, a.p, a.next, a.d, u, cap, m, r);
      } else {
        OtherCommitCap(s, a.p, a.next, a.d, u, cap, m, r);
      }
    } else {
      OtherIsCalmer(s, a, cap, u);
      CalmerCap(s, Step(s, a, cap), u, cap, m, r);
    }
  }

  lemma {:induction false} RunCap(s: Sys, acts: seq<Act>, cap: nat, m: nat, r: nat, u: UserId, ok: Sys -> bool)
    requires Inv(s) && AllSinceOk(s) && cap >= 1 && CapInv(s, u, cap, m, r) && Throughout(s, acts, cap, ok)
    requires forall x :: ok(x) ==> InFlight(x, u, m, r)
    ensures |Standing(Run(s, acts, cap).rows, u)| <= cap - 1 + m + r
    decreases |acts|
  {
    if acts != [] {
      ThenRest(s, acts, Step(s, acts[0], cap), cap, ok);
      StepCap(s, acts[0], cap, m, r, u);
      StepInv(s, acts[0], cap);
      StepSince(s, acts[0], cap);
      RunCap(Step(s, acts[0], cap), acts[1..], cap, m, r, u, ok);
    }
  }

  /** With a fixed cap, at most m logins of the user under way at once, and at most r of the user's
      rotations committing during any one of the user's evictions, the user never has more than
      cap - 1 + m + r unrevoked rows. */
  lemma SessionCap(acts: seq<Act>, cap: nat, m: nat, r: nat, u: UserId)
    requires cap >= 1 && AlwaysInFlight(Start, acts, cap, m, r, u)
    ensures |Standing(Run(Start, acts, cap).rows, u)| <= cap - 1 + m + r
  {
    StartInv();
    assert Standing(Start.rows, u) == {} && Pending(Start, u) == {} && Evicting(Start, u) == {};
    RunCap(Start, acts, cap, m, r, u, x => InFlight(x, u, m, r));
  }
}
