/** What holds of the sessions in every run (session/repository.go, auth/service.go,
    passwdreset/repository.go). */
module SessionTheorems {
  import opened Names
  import opened SessionTable
  import opened SessionRuns
  import RefreshStore

  lemma NoTokensYet()
    ensures OidcOk(Start.oidc, 0)
  {
  }

  lemma StartInv()
    ensures Inv(Start)
  {
    NoTokensYet();
  }

  lemma Reachable(acts: seq<Act>, cap: nat)
    ensures Inv(Run(Start, acts, cap))
  {
    StartInv();
    RunInv(Start, acts, cap);
  }

  lemma {:induction false} RunJoin(s: Sys, a: seq<Act>, b: seq<Act>, cap: nat)
    ensures Run(s, a + b, cap) == Run(Run(s, a, cap), b, cap)
    decreases |a|
  {
    if a == [] {
      assert a + b == b;
    } else {
      RunJoin(Step(s, a[0], cap), a[1..], b, cap);
      assert (a + b)[1..] == a[1..] + b;
    }
  }

  // ---- What the steps do, row by row ----

  /** A refresh gets past the checks if and only if its row is still there, its user is active, the
      row was last active within the limit and has not expired; otherwise the transaction is over. */
  lemma ApprovesExactly(s: Sys, p: nat, userActive: bool, idle: nat, cap: nat)
    requires p in s.open && s.open[p].Locked?
    ensures var (s', h) := (Step(s, Approves(p, userActive, idle), cap), s.open[p].hash);
            && (p in s'.open <==>
                 && h in s.rows && userActive && s.now < s.rows[h].expires
                 && (idle > 0 ==> s.now - (if s.rows[h].lastUsed.Some? then s.rows[h].lastUsed.value else s.rows[h].created) <= idle))
            && (p in s'.open ==> s'.open[p] == Approved(h, s.open[p].began, s.now, idle))
            && s' == s.(open := s'.open) && s'.open.Keys + {p} == s.open.Keys
            && forall q :: q in s'.open && q != p ==> s'.open[q] == s.open[q]
  {
  }

  /** SELECT ... FOR UPDATE waits while another rotation holds the row, and then finds it if and
      only if it is there, unrevoked and was unexpired when the transaction began. */
  lemma LocksExactly(s: Sys, p: nat, cap: nat)
    requires p in s.open && s.open[p].Waiting?
    ensures var (s', h, began) := (Step(s, Locks(p), cap), s.open[p].hash, s.open[p].began);
            if exists q :: q in s.open && ((s.open[q].Locked? && s.open[q].hash == h) || (s.open[q].Approved? && s.open[q].hash == h))
            then s' == s
            else
              && (p in s'.open <==> h in s.rows && !s.rows[h].revoked && began < s.rows[h].expires)
              && (p in s'.open ==> s'.open[p] == Locked(h, began))
              && s' == s.(open := s'.open) && s'.open.Keys + {p} == s.open.Keys
              && forall q :: q in s'.open && q != p ==> s'.open[q] == s.open[q]
  {
    assert Free(s.open, {s.open[p].hash}) <==>
      !exists q :: q in s.open && ((s.open[q].Locked? && s.open[q].hash == s.open[p].hash) || (s.open[q].Approved? && s.open[q].hash == s.open[p].hash));
  }

  /** The commit of a rotation: the old row superseded, one new row, every other row as it was. */
  lemma CommitsExactly(acts: seq<Act>, cap: nat, p: nat, next: Hash, d: Device)
    requires var s := Run(Start, acts, cap); p in s.open && s.open[p].Approved? && next !in s.chain
    ensures var s := Run(Start, acts, cap);
            var (rows', h, began) := (Step(s, Commits(p, next, d), cap).rows, s.open[p].hash, s.open[p].began);
            && h in s.rows && h != next && next !in s.rows && rows'.Keys == s.rows.Keys + {next}
            && rows'[h] == Row(s.rows[h].user, s.rows[h].device, s.rows[h].expires, s.rows[h].created, Some(began), true, Some(Rotation))
            && rows'[next] == Row(s.rows[h].user, d, s.rows[h].expires, began, Some(began), false, None)
            && forall x :: x in s.rows && x != h ==> rows'[x] == s.rows[x]
  {
    Reachable(acts, cap);
    var s := Run(Start, acts, cap);
    assert HoldsAt(s.open, p, s.open[p].hash);
    HeldStands(s, p, s.open[p].hash);
    RotatedRows(s.rows, s.open[p].began, s.open[p].hash, next, d);
  }

  /** The INSERT of a login, and the two statements on one row. */
  lemma CreatesExactly(s: Sys, p: nat, h: Hash, d: Device, timeout: nat, cap: nat)
    requires p in s.open && s.open[p].Inserting? && h !in s.chain
    ensures Step(s, Creates(p, h, d, timeout), cap).rows
              == s.rows[h := Row(s.open[p].u, d, s.now + timeout, s.now, None, false, None)]
  {
  }

  lemma OneRowExactly(s: Sys, h: Hash, u: UserId, cap: nat, x: Hash)
    requires x in s.rows
    ensures var (rows', r) := (Step(s, LogsOut(h), cap).rows, s.rows[x]);
            && x in rows'
            && rows'[x] == if x == h && !r.revoked && Free(s.open, {h})
                           then Row(r.user, r.device, r.expires, r.created, Some(s.now), true, Some(LoggedOut)) else r
    ensures var (rows', r) := (Step(s, RevokesByID(h, u), cap).rows, s.rows[x]);
            && x in rows'
            && rows'[x] == if x == h && r.user == u && !r.revoked && Free(s.open, {h})
                           then Row(r.user, r.device, r.expires, r.created, Some(s.now), true, Some(RevokeById)) else r
  {
  }

  /** Which rows the snapshot of each statement finds. */
  lemma ScansExactly(s: Sys, p: nat, job: Job, cap: nat, h: Hash)
    requires p !in s.open && (job.Excess? ==> cap >= 1 && MostRecent(s.rows, job.u, cap - 1, job.kept))
    ensures var s' := Step(s, Scans(p, job), cap);
            && p in s'.open && s'.open[p].Landing? && s'.open[p].job == job && s'.open[p].began == s.now
            && (h in s'.open[p].targets <==>
                 && h in s.rows && !s.rows[h].revoked
                 && match job
                    case Device(u, d) => s.rows[h].user == u && s.rows[h].device == d && s.now < s.rows[h].expires
                    case Excess(u, kept) => s.rows[h].user == u && h !in kept
                    case All(u) => s.rows[h].user == u
                    case Others(u, current) => s.rows[h].user == u && h != current && s.now < s.rows[h].expires
                    case Reset(u) => s.rows[h].user == u
                    case Stale => s.rows[h].lastUsed == None && s.now < s.rows[h].expires
                                  && 90 < s.now - s.rows[h].created < 600)
  {
  }

  /** What the landing of each statement writes: every row it found that is still unrevoked, with
      the statement's own time and reason. */
  lemma LandsRowByRow(s: Sys, p: nat, cap: nat, h: Hash)
    requires p in s.open && s.open[p].Landing? && Free(s.open, s.open[p].targets) && h in s.rows
    ensures var (s', o, r) := (Step(s, Lands(p), cap), s.open[p], s.rows[h]);
            && h in s'.rows
            && s'.rows[h] ==
                 if h !in o.targets || r.revoked then r
                 else match o.job
                   case Device(_, _) => Row(r.user, r.device, r.expires, r.created, Some(o.began), true, Some(DeviceReplaced))
                   case Excess(_, _) => Row(r.user, r.device, r.expires, r.created, r.lastUsed, true, Some(Evicted))
                   case All(_) => Row(r.user, r.device, r.expires, r.created, r.lastUsed, true, Some(MassRevoke))
                   case Others(_, _) => Row(r.user, r.device, r.expires, r.created, Some(o.began), true, Some(RevokeOthers))
                   case Reset(_) => Row(r.user, r.device, r.expires, r.created, r.lastUsed, true, r.reason)
                   case Stale => Row(r.user, r.device, r.expires, r.created, Some(o.began), true, Some(StaleInitial))
  {
    var o := s.open[p];
    assert DoLand(s, p).rows == Revoke(s.rows, StillStanding(s.rows, o.targets), Stamp(o.job, o.began), Why(o.job));
  }

  /** The purge finds the rows that are expired, revoked or unused for five minutes at its snapshot,
      deletes those and changes no other. */
  lemma PurgesExactly(s: Sys, p: nat, cap: nat, h: Hash)
    requires p !in s.open && h in s.rows
    ensures var s' := Step(s, Purges(p), cap);
            && p in s'.open && s'.open[p].Purging?
            && (h in s'.open[p].targets <==>
                 || s.rows[h].expires < s.now || s.rows[h].revoked
                 || s.now - (if s.rows[h].lastUsed.Some? then s.rows[h].lastUsed.value else s.rows[h].created) >= 300)
  {
  }

  lemma PurgeLands(s: Sys, p: nat, cap: nat)
    requires p in s.open && s.open[p].Purging? && Free(s.open, s.open[p].targets)
    ensures Step(s, Lands(p), cap).rows.Keys == s.rows.Keys - s.open[p].targets
    ensures forall h :: h in s.rows && h !in s.open[p].targets ==> Step(s, Lands(p), cap).rows[h] == s.rows[h]
  {
  }

  // ---- Revoked rows are frozen ----

  lemma CommitFreezes(s: Sys, h: Hash, p: nat, next: Hash, d: Device)
    requires AllOpenOk(s.open, s.rows, s.chain, s.now) && h in s.chain && (forall x :: x in s.rows ==> x in s.chain)
    ensures var s' := DoCommit(s, p, next, d);
            && h in s'.chain
            && (h in s'.rows ==> h in s.rows && (s.rows[h].revoked ==> s'.rows[h] == s.rows[h]))
  {
    var s' := DoCommit(s, p, next, d);
    if s' != s {
      assert HoldsAt(s.open, p, s.open[p].hash);
      HeldStands(s, p, s.open[p].hash);
      RotatedRows(s.rows, s.open[p].began, s.open[p].hash, next, d);
    }
  }

  lemma FrozenStep(s: Sys, a: Act, cap: nat, h: Hash)
    requires Inv(s) && h in s.chain
    ensures h in Step(s, a, cap).chain
    ensures h in Step(s, a, cap).rows ==> h in s.rows && (s.rows[h].revoked ==> Step(s, a, cap).rows[h] == s.rows[h])
  {
    match a
    case Commits(p, next, d) => CommitFreezes(s, h, p, next, d);
    case Creates(_, _, _, _) =>
    case _ =>
      AllTargetsOk(s);
      StepOnlyRevokes(s, a, cap);
      KeepsChains(s, a, cap);
  }

  lemma KeepsChains(s: Sys, a: Act, cap: nat)
    requires !WritesChains(a)
    ensures Step(s, a, cap).chain == s.chain && Step(s, a, cap).logins == s.logins && Step(s, a, cap).accepts == s.accepts
  {
    match a
    case Scans(p, job) => ScanFrame(s, p, job, cap);
    case Lands(p) => LandFrame(s, p);
    case Begins(p, _) => RotationFrame(s, a, p, cap);
    case Locks(p) => RotationFrame(s, a, p, cap);
    case Approves(p, _, _) => RotationFrame(s, a, p, cap);
    case _ =>
  }

  /** p's own transaction changes, and no chain. */
  ghost predicate Framed(s: Sys, s': Sys, p: nat) {
    && s'.chain == s.chain && s'.logins == s.logins && s'.accepts == s.accepts
    && OnlyAt(s.open, s'.open, p)
  }

  lemma ScanFrame(s: Sys, p: nat, job: Job, cap: nat)
    ensures Framed(s, DoScan(s, p, job, cap), p)
  {
  }

  lemma LandFrame(s: Sys, p: nat)
    ensures Framed(s, DoLand(s, p), p)
  {
  }

  lemma RotationFrame(s: Sys, a: Act, p: nat, cap: nat)
    requires (a.Begins? || a.Locks? || a.Approves?) && a.p == p
    ensures Framed(s, Step(s, a, cap), p)
  {
  }

  lemma CreateFrame(s: Sys, p: nat, h: Hash, d: Device, timeout: nat)
    ensures var s' := DoCreate(s, p, h, d, timeout);
            OnlyAt(s.open, s'.open, p) && forall x :: x in s.chain ==> x in s'.chain && s'.chain[x] == s.chain[x]
  {
  }

  lemma CommitFrame(s: Sys, p: nat, next: Hash, d: Device)
    ensures var s' := DoCommit(s, p, next, d);
            && OnlyAt(s.open, s'.open, p) && s'.logins == s.logins
            && forall x :: x in s.chain ==> x in s'.chain && s'.chain[x] == s.chain[x]
  {
  }

  lemma {:induction false} FrozenRun(s: Sys, acts: seq<Act>, cap: nat, h: Hash)
    requires Inv(s) && h in s.chain
    ensures h in Run(s, acts, cap).rows ==>
              h in s.rows && (s.rows[h].revoked ==> Run(s, acts, cap).rows[h] == s.rows[h])
    decreases |acts|
  {
    if acts != [] {
      FrozenStep(s, acts[0], cap, h);
      StepInv(s, acts[0], cap);
      FrozenRun(Step(s, acts[0], cap), acts[1..], cap, h);
    }
  }

  /** From the moment a row is revoked until it is deleted no transaction, password reset
      included, changes anything in it; and a deleted row never comes back. */
  lemma RevokedRowsAreFrozen(before: seq<Act>, after: seq<Act>, cap: nat, h: Hash)
    requires h in Run(Start, before, cap).chain
    ensures var s := Run(Start, before, cap);
            var s' := Run(s, after, cap);
            && (h !in s.rows ==> h !in s'.rows)
            && (h in s.rows && s.rows[h].revoked && h in s'.rows ==> s'.rows[h] == s.rows[h])
  {
    Reachable(before, cap);
    FrozenRun(Run(Start, before, cap), after, cap, h);
  }

  // ---- The rotation chain ----

  /** At every moment a login's chain has at most one unrevoked row, and each of its rows
      carries the login's user and its original expiry. */
  lemma OneStandingRowPerLogin(acts: seq<Act>, cap: nat, h: Hash, x: Hash)
    requires var s := Run(Start, acts, cap);
             h in s.rows && x in s.rows && h in s.chain && x in s.chain && s.chain[h] == s.chain[x]
    ensures var s := Run(Start, acts, cap);
            && s.chain[h] in s.logins
            && s.rows[h].expires == s.rows[x].expires == s.logins[s.chain[h]].expires
            && s.rows[h].user == s.rows[x].user == s.logins[s.chain[h]].user
            && (!s.rows[h].revoked && !s.rows[x].revoked ==> h == x)
  {
    Reachable(acts, cap);
    var s := Run(Start, acts, cap);
    assert Stands(s.rows, h) == !s.rows[h].revoked && Stands(s.rows, x) == !s.rows[x].revoked;
  }

  /** No refresh token is accepted twice. */
  lemma AcceptedOnce(acts: seq<Act>, cap: nat, i: nat, j: nat)
    requires i < j < |Run(Start, acts, cap).accepts|
    ensures Run(Start, acts, cap).accepts[i].hash != Run(Start, acts, cap).accepts[j].hash
  {
    Reachable(acts, cap);
  }

  /** Every accepted refresh is checked before its login's original expiry, and no later after the
      previous one of its login began, or after the login, than the idle limit then in force. */
  lemma AcceptedInTime(acts: seq<Act>, cap: nat, i: nat)
    requires i < |Run(Start, acts, cap).accepts|
    ensures var s := Run(Start, acts, cap);
            var a := s.accepts[i];
            && a.login in s.logins && a.began <= a.at < s.logins[a.login].expires
            && (a.idle > 0 ==> a.at - LastAccept(s.accepts[..i], a.login, s.logins[a.login].started) <= a.idle)
  {
    Reachable(acts, cap);
    var s := Run(Start, acts, cap);
    assert AcceptOk(s.accepts, i, s.logins, s.rotated);
  }

  // ---- Reuse detection ----

  /** In every reachable state the reuse check finds a token if and only if it was superseded by
      a rotation that began at least five seconds ago and its row is not yet purged; the user it
      names is the one who logged in, and no rotation under way holds that token's row. */
  lemma ReuseFoundExactly(acts: seq<Act>, cap: nat, h: Hash)
    ensures var s := Run(Start, acts, cap);
            var found := CheckReuse(s.rows, s.now, h);
            && (found.Some? <==> h in s.rotated && s.rotated[h] + TOKEN_REUSE_GRACE <= s.now && h in s.rows)
            && (found.Some? ==> && h in s.chain && s.chain[h] in s.logins && found.value == s.logins[s.chain[h]].user
                                && forall p :: !HoldsAt(s.open, p, h))
  {
    Reachable(acts, cap);
    var s := Run(Start, acts, cap);
    forall p | HoldsAt(s.open, p, h) ensures Stands(s.rows, h) {
      HeldStands(s, p, h);
    }
  }

  lemma {:induction false} RotatedForGood(s: Sys, acts: seq<Act>, cap: nat, h: Hash)
    requires Inv(s) && h in s.rotated && h in Run(s, acts, cap).rows
    ensures h in Run(s, acts, cap).rotated && Run(s, acts, cap).rotated[h] == s.rotated[h] && s.now <= Run(s, acts, cap).now
    decreases |acts|
  {
    if acts != [] {
      var s1 := Step(s, acts[0], cap);
      StepInv(s, acts[0], cap);
      assert h in s.chain;
      FrozenStep(s, acts[0], cap, h);
      if h in s1.rows {
        RotatedStays(s, acts[0], cap, h);
        RotatedForGood(s1, acts[1..], cap, h);
      } else {
        FrozenRun(s1, acts[1..], cap, h);
      }
    }
  }

  lemma RotatedStays(s: Sys, a: Act, cap: nat, h: Hash)
    requires Inv(s) && h in s.rotated && h in s.rows
    ensures h in Step(s, a, cap).rotated && Step(s, a, cap).rotated[h] == s.rotated[h] && s.now <= Step(s, a, cap).now
  {
    if a.Commits? && a.p in s.open && s.open[a.p].Approved? && s.open[a.p].hash == h {
      assert HoldsAt(s.open, a.p, h);
      HeldStands(s, a.p, h);
    }
  }

  /** Once found, a superseded token is found at every later moment until its row is purged, so a
      check that comes any number of steps after the refusal still finds it. */
  lemma ReuseStaysFound(before: seq<Act>, between: seq<Act>, cap: nat, h: Hash)
    requires var s := Run(Start, before, cap); CheckReuse(s.rows, s.now, h).Some?
    ensures var (s, s') := (Run(Start, before, cap), Run(Run(Start, before, cap), between, cap));
            CheckReuse(s'.rows, s'.now, h) == if h in s'.rows then CheckReuse(s.rows, s.now, h) else None
  {
    var s := Run(Start, before, cap);
    Reachable(before, cap);
    ReuseFoundExactly(before, cap, h);
    RunJoin(Start, before, between, cap);
    ReuseFoundExactly(before + between, cap, h);
    if h in Run(s, between, cap).rows {
      RotatedForGood(s, between, cap, h);
      FrozenRun(s, between, cap, h);
    }
  }

  // ---- What a mass revocation or a password reset leaves ----

  /** Some row of the login is unrevoked. */
  ghost predicate LoginStands(s: Sys, login: nat) {
    exists h :: Stands(s.rows, h) && h in s.chain && s.chain[h] == login
  }

  lemma DownCreate(s: Sys, p: nat, x: Hash, d: Device, timeout: nat, login: nat)
    requires !LoginStands(s, login) && login in s.logins && |s.logins| !in s.logins && (forall h :: h in s.rows ==> h in s.chain)
    ensures !LoginStands(DoCreate(s, p, x, d, timeout), login)
  {
    var s' := DoCreate(s, p, x, d, timeout);
    if s' != s {
      forall h | Stands(s'.rows, h) && h in s'.chain ensures s'.chain[h] != login {
        assert h != x ==> Stands(s.rows, h);
      }
    }
  }

  lemma DownCommit(s: Sys, p: nat, next: Hash, d: Device, login: nat)
    requires AllOpenOk(s.open, s.rows, s.chain, s.now) && !LoginStands(s, login) && (forall h :: h in s.rows ==> h in s.chain)
    ensures !LoginStands(DoCommit(s, p, next, d), login)
  {
    var s' := DoCommit(s, p, next, d);
    if s' != s {
      var x := s.open[p].hash;
      assert HoldsAt(s.open, p, x);
      HeldStands(s, p, x);
      RotatedRows(s.rows, s.open[p].began, x, next, d);
      forall h | Stands(s'.rows, h) && h in s'.chain ensures s'.chain[h] != login {
        assert h != next ==> Stands(s.rows, h);
      }
    }
  }

  lemma DownQuiet(s: Sys, s': Sys, login: nat)
    requires !LoginStands(s, login) && OnlyRevokes(s.rows, s'.rows) && s'.chain == s.chain
    ensures !LoginStands(s', login)
  {
    forall h | Stands(s'.rows, h) && h in s'.chain ensures s'.chain[h] != login {
      assert Stands(s.rows, h);
    }
  }

  lemma StaysDown(s: Sys, a: Act, cap: nat, login: nat)
    requires Inv(s) && login in s.logins && !LoginStands(s, login)
    ensures login in Step(s, a, cap).logins && !LoginStands(Step(s, a, cap), login)
  {
    match a
    case Creates(p, x, d, timeout) => DownCreate(s, p, x, d, timeout, login);
    case Commits(p, next, d) => DownCommit(s, p, next, d, login);
    case _ =>
      AllTargetsOk(s);
      StepOnlyRevokes(s, a, cap);
      KeepsChains(s, a, cap);
      DownQuiet(s, Step(s, a, cap), login);
  }

  lemma {:induction false} StaysDownRun(s: Sys, acts: seq<Act>, cap: nat, login: nat)
    requires Inv(s) && login in s.logins && !LoginStands(s, login)
    ensures !LoginStands(Run(s, acts, cap), login)
    decreases |acts|
  {
    if acts != [] {
      StaysDown(s, acts[0], cap, login);
      StepInv(s, acts[0], cap);
      StaysDownRun(Step(s, acts[0], cap), acts[1..], cap, login);
    }
  }

  /** A login can ever have an unrevoked row again if and only if it has one. */
  lemma LoginCanStand(s: Sys, cap: nat, login: nat)
    requires Inv(s) && login in s.logins
    ensures (exists more :: LoginStands(Run(s, more, cap), login)) <==> LoginStands(s, login)
  {
    if LoginStands(s, login) {
      var none: seq<Act> := [];
      assert Run(s, none, cap) == s;
      assert exists more :: more == none && LoginStands(Run(s, more, cap), login);
    } else {
      forall more ensures !LoginStands(Run(s, more, cap), login) {
        StaysDownRun(s, more, cap, login);
      }
    }
  }

  /** p has taken the snapshot of a mass revocation or a password reset of u, or of an eviction, and
      no rotation holds one of its rows. */
  predicate AboutToLand(s: Sys, p: nat) {
    p in s.open && s.open[p].Landing? && Sweeping(s.open[p].job) && Free(s.open, s.open[p].targets)
  }

  lemma LandedRowsExactly(rows: Table, o: Open, chain: map<Hash, nat>, now: nat, stamp: Option<nat>, reason: Option<Reason>, h: Hash)
    requires o.Landing? && Sweeping(o.job) && OpenOk(o, rows, chain, now)
    ensures var rows' := Revoke(rows, StillStanding(rows, o.targets), stamp, reason);
            Stands(rows', h) <==> Stands(rows, h) && (rows[h].user == o.job.u ==> h !in o.seen || h in Spared(o.job))
    ensures h in rows ==> Revoke(rows, StillStanding(rows, o.targets), stamp, reason)[h].user == rows[h].user
  {
  }

  /** In every reachable state, when such a statement lands its user keeps exactly the unrevoked
      rows inserted since its snapshot (and, of an eviction, the rows it spared); nobody else loses one. */
  lemma LandsExactly(acts: seq<Act>, cap: nat, p: nat)
    requires AboutToLand(Run(Start, acts, cap), p)
    ensures var s := Run(Start, acts, cap);
            var (s', o) := (Step(s, Lands(p), cap), s.open[p]);
            && Standing(s'.rows, o.job.u) == Standing(s.rows, o.job.u) - (o.seen - Spared(o.job))
            && forall v :: v != o.job.u ==> Standing(s'.rows, v) == Standing(s.rows, v)
  {
    Reachable(acts, cap);
    LandsExactlyFrom(Run(Start, acts, cap), p, cap);
  }

  lemma LandsExactlyFrom(s: Sys, p: nat, cap: nat)
    requires AllOpenOk(s.open, s.rows, s.chain, s.now) && AboutToLand(s, p)
    ensures var (s', o) := (Step(s, Lands(p), cap), s.open[p]);
            && Standing(s'.rows, o.job.u) == Standing(s.rows, o.job.u) - (o.seen - Spared(o.job))
            && forall v :: v != o.job.u ==> Standing(s'.rows, v) == Standing(s.rows, v)
  {
    var s', o := DoLand(s, p), s.open[p];
    assert OpenOk(o, s.rows, s.chain, s.now);
    assert s'.rows == Revoke(s.rows, StillStanding(s.rows, o.targets), Stamp(o.job, o.began), Why(o.job));
    forall h ensures Stands(s'.rows, h) <==> Stands(s.rows, h) && (s.rows[h].user == o.job.u ==> h !in o.seen || h in Spared(o.job)) {
      LandedRowsExactly(s.rows, o, s.chain, s.now, Stamp(o.job, o.began), Why(o.job), h);
    }
    forall h | h in s.rows ensures s'.rows[h].user == s.rows[h].user {
    }
    forall v, h ensures h in Standing(s'.rows, v) <==> Stands(s'.rows, h) && s'.rows[h].user == v {
    }
  }

  /** A mass revocation or a password reset leaves its user no unrevoked row if and only if none of
      them was inserted between its snapshot and its landing. */
  lemma LeavesNoneExactly(acts: seq<Act>, cap: nat, p: nat)
    requires AboutToLand(Run(Start, acts, cap), p) && !Run(Start, acts, cap).open[p].job.Excess?
    ensures var s := Run(Start, acts, cap);
            var (s', o) := (Step(s, Lands(p), cap), s.open[p]);
            Standing(s'.rows, o.job.u) == {} <==> Standing(s.rows, o.job.u) <= o.seen
  {
    LandsExactly(acts, cap, p);
    var s, o := Run(Start, acts, cap), Run(Start, acts, cap).open[p];
    NothingLeft(Standing(s.rows, o.job.u), o.seen, Spared(o.job));
  }

  lemma NothingLeft(rows: set<Hash>, seen: set<Hash>, spared: set<Hash>)
    requires spared == {}
    ensures rows - (seen - spared) == {} <==> rows <= seen
  {
    assert seen - spared == seen;
    if rows - seen == {} {
      forall h | h in rows ensures h in seen {
        assert h !in rows - seen;
      }
    }
  }

  // ---- Which logins survive one ----

  /** A row inserted since the snapshot belongs to a login made since, or to one that has had a
      refresh accepted since; a row that was there belongs to an older login. */
  ghost predicate SinceOk(o: Open, chain: map<Hash, nat>, accepts: seq<Accept>, logins: nat)
    requires o.Landing?
  {
    && o.mark <= |accepts| && o.since <= logins
    && forall h :: h in chain ==>
         if h in o.seen then chain[h] < o.since
         else o.since <= chain[h] || RefreshedSince(accepts, o.mark, chain[h])
  }

  ghost predicate RefreshedSince(accepts: seq<Accept>, mark: nat, login: nat) {
    exists i :: mark <= i < |accepts| && accepts[i].login == login
  }

  ghost predicate AllSinceOk(s: Sys) {
    forall p :: p in s.open && s.open[p].Landing? ==> SinceOk(s.open[p], s.chain, s.accepts, |s.logins|)
  }

  lemma CreatesSince(s: Sys, p: nat, h: Hash, d: Device, timeout: nat)
    requires AllSinceOk(s) && |s.logins| !in s.logins && (forall q :: q in s.open ==> OpenOk(s.open[q], s.rows, s.chain, s.now))
    ensures AllSinceOk(DoCreate(s, p, h, d, timeout))
  {
    var s' := DoCreate(s, p, h, d, timeout);
    if s' != s {
      forall q | q in s'.open && s'.open[q].Landing? ensures SinceOk(s'.open[q], s'.chain, s'.accepts, |s'.logins|) {
        assert SinceOk(s.open[q], s.chain, s.accepts, |s.logins|) && OpenOk(s.open[q], s.rows, s.chain, s.now);
      }
    }
  }

  lemma CommitsSince(s: Sys, p: nat, next: Hash, d: Device)
    requires AllSinceOk(s) && (forall q :: q in s.open ==> OpenOk(s.open[q], s.rows, s.chain, s.now))
    ensures AllSinceOk(DoCommit(s, p, next, d))
  {
    var s' := DoCommit(s, p, next, d);
    if s' != s {
      forall q | q in s'.open && s'.open[q].Landing? ensures SinceOk(s'.open[q], s'.chain, s'.accepts, |s'.logins|) {
        var o := s.open[q];
        assert SinceOk(o, s.chain, s.accepts, |s.logins|) && OpenOk(o, s.rows, s.chain, s.now);
        assert s'.accepts[|s.accepts|].login == s'.chain[next];
        forall login | RefreshedSince(s.accepts, o.mark, login) ensures RefreshedSince(s'.accepts, o.mark, login) {
          var i :| o.mark <= i < |s.accepts| && s.accepts[i].login == login;
          assert s'.accepts[i].login == login;
        }
        assert RefreshedSince(s'.accepts, o.mark, s'.chain[next]);
      }
    }
  }

  /** What is open at q was open before, or is a scan of this moment. */
  ghost predicate OldOrFresh(s: Sys, s': Sys, q: nat) {
    q in s'.open && s'.open[q].Landing? ==>
      var o := s'.open[q];
      || (q in s.open && s.open[q] == o)
      || (o.seen == s.chain.Keys && o.mark == |s.accepts| && o.since == |s.logins|)
  }

  lemma ScanFresh(s: Sys, p: nat, job: Job, cap: nat, q: nat)
    ensures OldOrFresh(s, DoScan(s, p, job, cap), q)
  {
  }

  lemma LandOld(s: Sys, p: nat, q: nat)
    ensures OldOrFresh(s, DoLand(s, p), q)
  {
  }

  lemma RotationOld(s: Sys, a: Act, cap: nat, q: nat)
    requires a.Begins? || a.Locks? || a.Approves?
    ensures OldOrFresh(s, Step(s, a, cap), q)
  {
  }

  /** The steps that write no chain open no statement but a scan, whose marks are of this moment. */
  lemma OpensFresh(s: Sys, a: Act, cap: nat, q: nat)
    requires !WritesChains(a)
    ensures OldOrFresh(s, Step(s, a, cap), q)
  {
    match a
    case Scans(p, job) => ScanFresh(s, p, job, cap, q);
    case Lands(p) => LandOld(s, p, q);
    case Begins(_, _) => RotationOld(s, a, cap, q);
    case Locks(_) => RotationOld(s, a, cap, q);
    case Approves(_, _, _) => RotationOld(s, a, cap, q);
    case _ =>
  }

  lemma StepSince(s: Sys, a: Act, cap: nat)
    requires Inv(s) && AllSinceOk(s)
    ensures AllSinceOk(Step(s, a, cap))
  {
    match a
    case Creates(p, h, d, timeout) => CreatesSince(s, p, h, d, timeout);
    case Commits(p, next, d) => CommitsSince(s, p, next, d);
    case _ =>
      var s' := Step(s, a, cap);
      KeepsChains(s, a, cap);
      OldChains(s);
      forall q | q in s'.open && s'.open[q].Landing? ensures SinceOk(s'.open[q], s'.chain, s'.accepts, |s'.logins|) {
        OpensFresh(s, a, cap, q);
        StillSince(s, s', q);
      }
  }

  lemma StillSince(s: Sys, s': Sys, q: nat)
    requires AllSinceOk(s) && OldOrFresh(s, s', q) && q in s'.open && s'.open[q].Landing?
    requires s'.chain == s.chain && s'.accepts == s.accepts && s'.logins == s.logins
    requires forall h :: h in s.chain ==> s.chain[h] < |s.logins|
    ensures SinceOk(s'.open[q], s'.chain, s'.accepts, |s'.logins|)
  {
  }

  lemma OldChains(s: Sys)
    requires Inv(s)
    ensures forall h :: h in s.chain ==> s.chain[h] in s.logins && s.chain[h] < |s.logins|
  {
  }

  lemma {:induction false} RunSince(s: Sys, acts: seq<Act>, cap: nat)
    requires Inv(s) && AllSinceOk(s)
    ensures AllSinceOk(Run(s, acts, cap))
    decreases |acts|
  {
    if acts != [] {
      StepSince(s, acts[0], cap);
      StepInv(s, acts[0], cap);
      RunSince(Step(s, acts[0], cap), acts[1..], cap);
    }
  }

  /** Some row of the login inserted since the snapshot is unrevoked. */
  ghost predicate EscapesWith(s: Sys, o: Open, login: nat)
    requires o.Landing?
  {
    exists h :: Stands(s.rows, h) && h in s.chain && s.chain[h] == login && h !in o.seen
  }

  /** After the landing of a mass revocation or a password reset, a login of its user can ever have
      an unrevoked row again if and only if one inserted since the snapshot is unrevoked by then;
      a login older than the snapshot has one only if a refresh of it was accepted since. */
  lemma RevocationCuts(acts: seq<Act>, cap: nat, p: nat, login: nat)
    requires AboutToLand(Run(Start, acts, cap), p) && !Run(Start, acts, cap).open[p].job.Excess?
    requires var s := Run(Start, acts, cap); login in s.logins && s.logins[login].user == s.open[p].job.u
    ensures var s := Run(Start, acts, cap);
            var (s', o) := (Step(s, Lands(p), cap), s.open[p]);
            && ((exists more :: LoginStands(Run(s', more, cap), login)) <==> EscapesWith(s, o, login))
            && (EscapesWith(s, o, login) && login < o.since ==> RefreshedSince(s.accepts, o.mark, login))
  {
    Reachable(acts, cap);
    StartInv();
    RunSince(Start, acts, cap);
    RevocationCutsFrom(Run(Start, acts, cap), cap, p, login);
  }

  lemma RevocationCutsFrom(s: Sys, cap: nat, p: nat, login: nat)
    requires Inv(s) && AllSinceOk(s) && AboutToLand(s, p) && !s.open[p].job.Excess?
    requires login in s.logins && s.logins[login].user == s.open[p].job.u
    ensures var (s', o) := (Step(s, Lands(p), cap), s.open[p]);
            && ((exists more :: LoginStands(Run(s', more, cap), login)) <==> EscapesWith(s, o, login))
            && (EscapesWith(s, o, login) && login < o.since ==> RefreshedSince(s.accepts, o.mark, login))
  {
    var s', o := Step(s, Lands(p), cap), s.open[p];
    StepInv(s, Lands(p), cap);
    KeepsChains(s, Lands(p), cap);
    LoginCanStand(s', cap, login);
    LandsExactlyFrom(s, p, cap);
    EscapesExactly(s, s', o, login);
    assert SinceOk(o, s.chain, s.accepts, |s.logins|);
  }

  lemma EscapesExactly(s: Sys, s': Sys, o: Open, login: nat)
    requires ChainOk(s.rows, s.chain, s.logins) && ChainOk(s'.rows, s.chain, s.logins) && s'.chain == s.chain
    requires o.Landing? && Sweeping(o.job) && !o.job.Excess? && login in s.logins && s.logins[login].user == o.job.u
    requires Standing(s'.rows, o.job.u) == Standing(s.rows, o.job.u) - o.seen
    ensures LoginStands(s', login) <==> EscapesWith(s, o, login)
  {
    forall h | h in s.chain && s.chain[h] == login
      ensures Stands(s'.rows, h) <==> Stands(s.rows, h) && h !in o.seen
    {
      assert Stands(s.rows, h) <==> h in Standing(s.rows, o.job.u);
      assert Stands(s'.rows, h) <==> h in Standing(s'.rows, o.job.u);
    }
  }

  // ---- The reuse response ----

  predicate LeavesAlone(acts: seq<Act>, p: nat) {
    forall i :: 0 <= i < |acts| ==>
      acts[i].LogsOut? || acts[i].RevokesByID? || acts[i].UsesOidc? || acts[i].Waits? || acts[i].p != p
  }

  lemma Untouched(s: Sys, a: Act, cap: nat, p: nat)
    requires p in s.open && (a.LogsOut? || a.RevokesByID? || a.UsesOidc? || a.Waits? || a.p != p)
    ensures p in Step(s, a, cap).open && Step(s, a, cap).open[p] == s.open[p]
  {
    match a
    case Scans(q, job) => ScanFrame(s, q, job, cap);
    case Lands(q) => LandFrame(s, q);
    case Begins(q, _) => RotationFrame(s, a, q, cap);
    case Locks(q) => RotationFrame(s, a, q, cap);
    case Approves(q, _, _) => RotationFrame(s, a, q, cap);
    case Creates(q, h, d, timeout) => CreateFrame(s, q, h, d, timeout);
    case Commits(q, next, d) => CommitFrame(s, q, next, d);
    case _ =>
  }

  lemma {:induction false} UntouchedRun(s: Sys, acts: seq<Act>, cap: nat, p: nat)
    requires p in s.open && LeavesAlone(acts, p)
    ensures p in Run(s, acts, cap).open && Run(s, acts, cap).open[p] == s.open[p]
    decreases |acts|
  {
    if acts != [] {
      Untouched(s, acts[0], cap, p);
      UntouchedRun(Step(s, acts[0], cap), acts[1..], cap, p);
    }
  }

  /** p takes the snapshot, and other requests go on. */
  lemma ScanThen(s: Sys, p: nat, u: UserId, during: seq<Act>, cap: nat)
    requires p !in s.open && LeavesAlone(during, p)
    ensures var s1 := Run(s, [Scans(p, All(u))] + during, cap);
            && p in s1.open
            && s1.open[p] == Landing(All(u), Standing(s.rows, u), s.now, s.chain.Keys, |s.accepts|, |s.logins|)
  {
    assert ([Scans(p, All(u))] + during)[1..] == during;
    UntouchedRun(Step(s, Scans(p, All(u)), cap), during, cap, p);
  }

  /** The response to a reuse of token h of user u, with any steps between the check, the snapshot
      and the landing. The user keeps the rows inserted between snapshot and landing that still
      stand, and the reused token's login can have an unrevoked row again if and only if one of
      those is its own; then a refresh of it was accepted in that interval. */
  lemma ReuseResponse(before: seq<Act>, between: seq<Act>, during: seq<Act>, cap: nat, p: nat, h: Hash, u: UserId)
    requires var s := Run(Start, before, cap); CheckReuse(s.rows, s.now, h) == Some(u)
    requires var s1 := Run(Start, before + between, cap);
             && p !in s1.open && LeavesAlone(during, p)
             && Free(Run(s1, [Scans(p, All(u))] + during, cap).open, Standing(s1.rows, u))
    ensures var s1 := Run(Start, before + between, cap);
            var s2 := Run(s1, [Scans(p, All(u))] + during, cap);
            var s3 := Step(s2, Lands(p), cap);
            && h in s1.chain
            && Standing(s3.rows, u) == Standing(s2.rows, u) - s1.chain.Keys
            && ((exists more :: LoginStands(Run(s3, more, cap), s1.chain[h])) <==>
                  exists x :: x in Standing(s2.rows, u) - s1.chain.Keys && x in s2.chain && s2.chain[x] == s1.chain[h])
            && ((exists x :: x in Standing(s2.rows, u) - s1.chain.Keys && x in s2.chain && s2.chain[x] == s1.chain[h]) ==>
                  RefreshedSince(s2.accepts, |s1.accepts|, s1.chain[h]))
  {
    var s1 := Run(Start, before + between, cap);
    var s2 := Run(s1, [Scans(p, All(u))] + during, cap);
    ReusedLogin(before, between, cap, h, u);
    Reachable(before + between, cap);
    ScanThen(s1, p, u, during, cap);
    var acts := before + between + ([Scans(p, All(u))] + during);
    RunJoin(Start, before + between, [Scans(p, All(u))] + during, cap);
    OldLogin(s1, [Scans(p, All(u))] + during, cap, s1.chain[h]);
    LandsExactly(acts, cap, p);
    RevocationCuts(acts, cap, p, s1.chain[h]);
    EscapesAsRows(acts, cap, s2.open[p], s1.chain[h], u);
  }

  /** In a reachable state the rows of a login are its user's. */
  lemma EscapesAsRows(acts: seq<Act>, cap: nat, o: Open, login: nat, u: UserId)
    requires o.Landing? && login in Run(Start, acts, cap).logins && Run(Start, acts, cap).logins[login].user == u
    ensures var s := Run(Start, acts, cap);
            EscapesWith(s, o, login) <==> exists x :: x in Standing(s.rows, u) - o.seen && x in s.chain && s.chain[x] == login
  {
    Reachable(acts, cap);
    var s := Run(Start, acts, cap);
    forall x | x in s.chain && s.chain[x] == login ensures Stands(s.rows, x) <==> x in Standing(s.rows, u) {
    }
  }

  lemma ReusedLogin(before: seq<Act>, between: seq<Act>, cap: nat, h: Hash, u: UserId)
    requires var s := Run(Start, before, cap); CheckReuse(s.rows, s.now, h) == Some(u)
    ensures var s1 := Run(Start, before + between, cap);
            && h in s1.chain && s1.chain[h] < |s1.logins| && s1.chain[h] in s1.logins && s1.logins[s1.chain[h]].user == u
  {
    var s := Run(Start, before, cap);
    Reachable(before, cap);
    ReuseFoundExactly(before, cap, h);
    RunJoin(Start, before, between, cap);
    Reachable(before + between, cap);
    OldLogin(s, between, cap, s.chain[h]);
    OldDigest(s, between, cap, h);
    OldChains(Run(Start, before + between, cap));
  }

  lemma StepOldLogin(s: Sys, a: Act, cap: nat, login: nat)
    requires login in s.logins && |s.logins| !in s.logins
    ensures login in Step(s, a, cap).logins && Step(s, a, cap).logins[login] == s.logins[login]
  {
    match a
    case Creates(_, _, _, _) =>
    case Commits(p, next, d) => CommitFrame(s, p, next, d);
    case _ => KeepsChains(s, a, cap);
  }

  lemma {:induction false} OldLogin(s: Sys, acts: seq<Act>, cap: nat, login: nat)
    requires Inv(s) && login in s.logins
    ensures login in Run(s, acts, cap).logins && Run(s, acts, cap).logins[login] == s.logins[login]
    decreases |acts|
  {
    if acts != [] {
      assert |s.logins| !in s.logins;
      StepOldLogin(s, acts[0], cap, login);
      StepInv(s, acts[0], cap);
      OldLogin(Step(s, acts[0], cap), acts[1..], cap, login);
    }
  }

  lemma StepOldDigest(s: Sys, a: Act, cap: nat, h: Hash)
    requires h in s.chain
    ensures h in Step(s, a, cap).chain && Step(s, a, cap).chain[h] == s.chain[h]
  {
    match a
    case Creates(p, x, d, timeout) => CreateFrame(s, p, x, d, timeout);
    case Commits(p, next, d) => CommitFrame(s, p, next, d);
    case _ => KeepsChains(s, a, cap);
  }

  lemma {:induction false} OldDigest(s: Sys, acts: seq<Act>, cap: nat, h: Hash)
    requires h in s.chain
    ensures h in Run(s, acts, cap).chain && Run(s, acts, cap).chain[h] == s.chain[h]
    decreases |acts|
  {
    if acts != [] {
      StepOldDigest(s, acts[0], cap, h);
      OldDigest(Step(s, acts[0], cap), acts[1..], cap, h);
    }
  }

  /** The Redis half, as one store operation on any store that its runs can reach: exactly the
      user's live OIDC refresh tokens go. */
  lemma OidcHalf(w: RefreshStore.World, u: UserId, t: Token)
    requires RefreshStore.Good(w.store, w.ledger)
    ensures t in RefreshStore.Do(w, RefreshStore.RevokeUser(u)).store.live <==>
              t in w.store.live && w.store.live[t].sess.user != u
  {
    RefreshStore.UserRevocationExact(w.store, w.ledger, u);
  }

  /** So in every reachable state the user has none right after it. */
  lemma OidcGone(acts: seq<Act>, cap: nat, u: UserId, t: Token)
    ensures var w := Run(Start, acts, cap).oidc;
            var w' := RefreshStore.Do(w, RefreshStore.RevokeUser(u));
            t in w'.store.live <==> t in w.store.live && w.store.live[t].sess.user != u
  {
    Reachable(acts, cap);
    OidcHalf(Run(Start, acts, cap).oidc, u, t);
  }

  // ---- The stale-session sweep ----

  /** At every moment the latest sweep that has landed began at most g seconds ago. */
  ghost predicate SweptEvery(s: Sys, acts: seq<Act>, cap: nat, g: nat)
    decreases |acts|
  {
    s.now - s.swept <= g && (acts != [] ==> SweptEvery(Step(s, acts[0], cap), acts[1..], cap, g))
  }

  predicate NeverRefreshed(rows: Table, now: nat, h: Hash) {
    Stands(rows, h) && rows[h].expires > now && rows[h].lastUsed.None?
  }

  /** Whatever is never refreshed was at most ninety seconds old when the sweep o began, or is one
      of its targets. */
  ghost predicate SweepOk(o: Open, rows: Table, now: nat)
    requires o.Landing?
  {
    o.began <= now && forall h :: NeverRefreshed(rows, now, h) ==> h in o.targets || o.began <= rows[h].created + STALE_CUTOFF
  }

  ghost predicate SweepsOk(s: Sys) {
    && s.swept <= s.now
    && (forall h :: NeverRefreshed(s.rows, s.now, h) ==> s.swept <= s.rows[h].created + STALE_CUTOFF)
    && (forall p :: p in s.open && s.open[p].Landing? && s.open[p].job.Stale? ==> SweepOk(s.open[p], s.rows, s.now))
  }

  /** Nothing becomes never refreshed but a row created now. */
  ghost predicate NoneYounger(s: Sys, s': Sys) {
    && s.now <= s'.now
    && forall h :: NeverRefreshed(s'.rows, s'.now, h) ==>
         || (NeverRefreshed(s.rows, s.now, h) && s'.rows[h].created == s.rows[h].created)
         || s'.rows[h].created == s.now
  }

  lemma SweepStays(s: Sys, s': Sys, o: Open)
    requires o.Landing? && SweepOk(o, s.rows, s.now) && NoneYounger(s, s')
    ensures SweepOk(o, s'.rows, s'.now)
  {
  }

  lemma CommitNotYounger(s: Sys, p: nat, next: Hash, d: Device)
    requires AllOpenOk(s.open, s.rows, s.chain, s.now) && (forall x :: x in s.rows ==> x in s.chain)
    ensures NoneYounger(s, DoCommit(s, p, next, d))
  {
    if DoCommit(s, p, next, d) != s {
      assert HoldsAt(s.open, p, s.open[p].hash);
      HeldStands(s, p, s.open[p].hash);
      RotatedRows(s.rows, s.open[p].began, s.open[p].hash, next, d);
    }
  }

  lemma QuietNotYounger(s: Sys, s': Sys)
    requires OnlyRevokes(s.rows, s'.rows) && s.now <= s'.now
    ensures NoneYounger(s, s')
  {
  }

  lemma LaterNow(s: Sys, a: Act, cap: nat)
    ensures s.now <= Step(s, a, cap).now
    ensures !a.Lands? ==> Step(s, a, cap).swept == s.swept
  {
  }

  lemma StepNotYounger(s: Sys, a: Act, cap: nat)
    requires Inv(s)
    ensures NoneYounger(s, Step(s, a, cap))
  {
    match a
    case Creates(_, _, _, _) =>
    case Commits(p, next, d) => CommitNotYounger(s, p, next, d);
    case _ =>
      AllTargetsOk(s);
      StepOnlyRevokes(s, a, cap);
      LaterNow(s, a, cap);
      QuietNotYounger(s, Step(s, a, cap));
  }

  /** A sweep that begins within g seconds of the latest one misses nobody. */
  lemma ScanSweepOk(s: Sys, p: nat, cap: nat, g: nat)
    requires SweepsOk(s) && s.now - s.swept <= g && STALE_CUTOFF + g < STALE_HORIZON && p !in s.open
    ensures SweepOk(DoScan(s, p, Stale, cap).open[p], s.rows, s.now)
  {
  }

  lemma LandSweeps(s: Sys, p: nat)
    requires SweepsOk(s) && NoneYounger(s, DoLand(s, p)) && OnlyRevokes(s.rows, DoLand(s, p).rows)
    ensures SweepsOk(DoLand(s, p))
  {
    var s' := DoLand(s, p);
    if s' != s {
      LandFrame(s, p);
      forall q | q in s'.open && s'.open[q].Landing? && s'.open[q].job.Stale? ensures SweepOk(s'.open[q], s'.rows, s'.now) {
        SweepStays(s, s', s.open[q]);
      }
      forall h | NeverRefreshed(s'.rows, s'.now, h) ensures s'.swept <= s'.rows[h].created + STALE_CUTOFF {
        assert NeverRefreshed(s.rows, s.now, h);
      }
    }
  }

  lemma StepSweeps(s: Sys, a: Act, cap: nat, g: nat)
    requires Inv(s) && SweepsOk(s) && s.now - s.swept <= g && STALE_CUTOFF + g < STALE_HORIZON
    ensures SweepsOk(Step(s, a, cap))
  {
    var s' := Step(s, a, cap);
    StepNotYounger(s, a, cap);
    LaterNow(s, a, cap);
    if a.Lands? {
      AllTargetsOk(s);
      StepOnlyRevokes(s, a, cap);
      LandSweeps(s, a.p);
    } else {
      forall q | q in s'.open && s'.open[q].Landing? && s'.open[q].job.Stale? ensures SweepOk(s'.open[q], s'.rows, s'.now) {
        NewSweeps(s, a, cap, q);
        if q in s.open && s.open[q] == s'.open[q] {
          SweepStays(s, s', s.open[q]);
        } else {
          ScanSweepOk(s, q, cap, g);
        }
      }
    }
  }

  /** A sweep not open before was opened by its scan. */
  lemma NewSweeps(s: Sys, a: Act, cap: nat, q: nat)
    requires q in Step(s, a, cap).open && Step(s, a, cap).open[q].Landing? && Step(s, a, cap).open[q].job.Stale?
    ensures || (q in s.open && s.open[q] == Step(s, a, cap).open[q])
            || (a == Scans(q, Stale) && q !in s.open)
  {
    match a
    case Scans(p, job) =>
    case Lands(p) => LandFrame(s, p);
    case Begins(p, _) => RotationFrame(s, a, p, cap);
    case Locks(p) => RotationFrame(s, a, p, cap);
    case Approves(p, _, _) => RotationFrame(s, a, p, cap);
    case Creates(p, h, d, timeout) => CreateFrame(s, p, h, d, timeout);
    case Commits(p, next, d) => CommitFrame(s, p, next, d);
    case _ =>
  }

  lemma {:induction false} RunSweeps(s: Sys, acts: seq<Act>, cap: nat, g: nat)
    requires Inv(s) && SweepsOk(s) && SweptEvery(s, acts, cap, g) && STALE_CUTOFF + g < STALE_HORIZON
    ensures SweepsOk(Run(s, acts, cap)) && Run(s, acts, cap).now - Run(s, acts, cap).swept <= g
    decreases |acts|
  {
    if acts != [] {
      StepSweeps(s, acts[0], cap, g);
      StepInv(s, acts[0], cap);
      RunSweeps(Step(s, acts[0], cap), acts[1..], cap, g);
    }
  }

  /** If at every moment the latest sweep that has landed began at most g seconds ago, with 90 + g
      under 600, no unexpired, unrevoked, never-refreshed session is ever older than 90 + g seconds. */
  lemma NoStaleSession(acts: seq<Act>, cap: nat, g: nat, h: Hash)
    requires SweptEvery(Start, acts, cap, g) && STALE_CUTOFF + g < STALE_HORIZON
    requires var s := Run(Start, acts, cap); NeverRefreshed(s.rows, s.now, h)
    ensures Run(Start, acts, cap).now <= Run(Start, acts, cap).rows[h].created + STALE_CUTOFF + g
  {
    StartInv();
    RunSweeps(Start, acts, cap, g);
  }

  /** A row that a rotation created is never revoked as a stale login. */
  lemma RotatedNeverStale(acts: seq<Act>, cap: nat, h: Hash)
    requires var s := Run(Start, acts, cap); h in s.rows && h in s.successors
    ensures Run(Start, acts, cap).rows[h].reason != Some(StaleInitial)
  {
    Reachable(acts, cap);
  }

  // ---- A transaction alone is its steps ----

  lemma RunTwo(s: Sys, a: Act, b: Act, cap: nat)
    ensures Run(s, [a, b], cap) == Step(Step(s, a, cap), b, cap)
  {
    var s1 := Step(s, a, cap);
    assert [a, b][1..] == [b] && [b][1..] == [];
    assert Run(s1, [b], cap) == Run(Step(s1, b, cap), [], cap);
  }

  /** The table that the statement leaves when nothing comes in between. */
  function Statement(t: Table, now: nat, job: Job): Table {
    match job
    case Device(u, d) => RevokeForDevice(t, now, u, d)
    case Excess(u, kept) => EvictExcess(t, u, kept)
    case All(u) => RevokeAllForUser(t, u)
    case Others(u, current) => RevokeOtherSessions(t, now, u, current)
    case Reset(u) => PasswordReset(t, u)
    case Stale => RevokeStaleInitialSessions(t, now)
  }

  /** A statement on many rows whose landing follows its snapshot. */
  lemma StatementAlone(s: Sys, p: nat, job: Job, cap: nat)
    requires p !in s.open && (job.Excess? ==> cap > 0 && MostRecent(s.rows, job.u, cap - 1, job.kept))
    requires Free(s.open, Targets(s.rows, s.now, job))
    ensures Run(s, [Scans(p, job), Lands(p)], cap).rows == Statement(s.rows, s.now, job)
  {
    var s1 := DoScan(s, p, job, cap);
    RunTwo(s, Scans(p, job), Lands(p), cap);
    assert s1.open[p].targets == Targets(s.rows, s.now, job) && Free(s1.open, s1.open[p].targets);
    assert StillStanding(s.rows, Targets(s.rows, s.now, job)) == Targets(s.rows, s.now, job);
  }

  /** A rotation whose four steps follow each other, at one moment. */
  lemma RotationAlone(s: Sys, p: nat, h: Hash, next: Hash, d: Device, userActive: bool, idle: nat, cap: nat)
    requires p !in s.open && h in s.chain && next !in s.chain && Free(s.open, {h})
    requires Rotatable(s.rows, s.now, h) && MayRefresh(s.rows[h], s.now, userActive, idle)
    ensures Step(Step(Step(Step(s, Begins(p, h), cap), Locks(p), cap), Approves(p, userActive, idle), cap), Commits(p, next, d), cap).rows
            == Rotate(s.rows, s.now, h, next, d)
  {
    var s1 := DoBegin(s, p, h);
    var s2 := DoLock(s1, p);
    assert s2 == s.(open := s.open[p := Locked(h, s.now)]);
    var s3 := DoApprove(s2, p, userActive, idle);
    assert s3 == s.(open := s.open[p := Approved(h, s.now, s.now, idle)]);
  }
}
