/** Every interleaving of the session transactions under read-committed isolation, with the
    history that the promises speak of. A statement on many rows reads its rows in one step and
    changes them in another; a rotation begins, locks its row, checks it and commits; now() is
    the time a transaction began. */
module SessionRuns {
  import opened Names
  import opened SessionTable
  import RefreshStore
  import RefreshKeys

  datatype Login = Login(user: UserId, expires: nat, started: nat)

  /** One accepted refresh: the token presented, its user and login, when it was checked, when its
      transaction began, and the idle limit then in force. */
  datatype Accept = Accept(hash: Hash, user: UserId, login: nat, at: nat, began: nat, idle: nat)

  /** The UPDATE statements on many rows; kept is what the subquery of an eviction answers. */
  datatype Job = Device(u: UserId, d: Device) | Excess(u: UserId, kept: set<Hash>) | All(u: UserId)
               | Others(u: UserId, current: Hash) | Reset(u: UserId) | Stale

  /** Where a transaction is between two steps. Of Landing only job, targets and began exist in the
      program; the rest is history: every digest inserted before the snapshot, and how many
      refreshes were accepted and how many logins made before it. */
  datatype Open =
    | Waiting(hash: Hash, began: nat)
    | Locked(hash: Hash, began: nat)
    | Approved(hash: Hash, began: nat, checked: nat, idle: nat)
    | Landing(job: Job, targets: set<Hash>, began: nat, seen: set<Hash>, mark: nat, since: nat)
    | Purging(targets: set<Hash>)
    | Inserting(u: UserId)

  /** Only now, rows, oidc and open exist in the program; the rest is history. swept is when the
      latest stale sweep that has landed began. */
  datatype Sys = Sys(
    now: nat,
    rows: Table,
    oidc: RefreshStore.World,
    open: map<nat, Open>,
    logins: map<nat, Login>,
    chain: map<Hash, nat>,
    rotated: map<Hash, nat>,
    successors: set<Hash>,
    accepts: seq<Accept>,
    swept: nat)

  const Start := Sys(0, map[], RefreshStore.World(RefreshKeys.Empty, map[]), map[], map[], map[], map[], {}, [], 0)

  datatype Act =
    | Scans(p: nat, job: Job)
    | Purges(p: nat)
    | Lands(p: nat)
    | Creates(p: nat, h: Hash, d: Device, timeout: nat)
    | Begins(p: nat, h: Hash)
    | Locks(p: nat)
    | Approves(p: nat, userActive: bool, idle: nat)
    | Commits(p: nat, next: Hash, d: Device)
    | GivesUp(p: nat)
    | LogsOut(h: Hash)
    | RevokesByID(h: Hash, u: UserId)
    | UsesOidc(op: RefreshStore.Op)
    | Waits(seconds: nat)

  // ---- Statements on many rows ----

  /** The rows that the statement's WHERE finds. */
  function Targets(t: Table, now: nat, job: Job): set<Hash> {
    match job
    case Device(u, d) => SameDevice(t, now, u, d)
    case Excess(u, kept) => Standing(t, u) - kept
    case All(u) => Standing(t, u)
    case Others(u, current) => OtherRows(t, now, u, current)
    case Reset(u) => Standing(t, u)
    case Stale => StaleInitials(t, now)
  }

  function Stamp(job: Job, began: nat): Option<nat> {
    if job.Device? || job.Others? || job.Stale? then Some(began) else None
  }

  function Why(job: Job): Option<Reason> {
    match job
    case Device(_, _) => Some(DeviceReplaced)
    case Excess(_, _) => Some(Evicted)
    case All(_) => Some(MassRevoke)
    case Others(_, _) => Some(RevokeOthers)
    case Reset(_) => None
    case Stale => Some(StaleInitial)
  }

  /** Having waited for a row lock a statement looks at the row again, and skips it if it has been
      revoked or deleted meanwhile. */
  function StillStanding(t: Table, targets: set<Hash>): set<Hash> {
    set h | h in targets && Stands(t, h)
  }

  // ---- Row locks ----

  predicate Holds(o: Open, h: Hash) {
    (o.Locked? || o.Approved?) && o.hash == h
  }

  /** No rotation holds the lock of a row in hs. */
  predicate Free(open: map<nat, Open>, hs: set<Hash>) {
    forall q :: q in open && (open[q].Locked? || open[q].Approved?) ==> open[q].hash !in hs
  }

  // ---- Steps; a step that is not possible leaves the system alone ----

  /** The snapshot. An eviction keeps cap - 1 rows, as the subquery picks them. */
  ghost function DoScan(s: Sys, p: nat, job: Job, cap: nat): Sys {
    if p in s.open || (job.Excess? && (cap == 0 || !MostRecent(s.rows, job.u, cap - 1, job.kept))) then s
    else s.(open := s.open[p := Landing(job, Targets(s.rows, s.now, job), s.now, s.chain.Keys, |s.accepts|, |s.logins|)])
  }

  function DoPurge(s: Sys, p: nat): Sys {
    if p in s.open then s
    else s.(open := s.open[p := Purging(s.rows.Keys - DeleteExpired(s.rows, s.now).Keys)])
  }

  function Max(a: nat, b: nat): nat {
    if a < b then b else a
  }

  /** The commit of a statement on many rows; it waits for the rotations that hold one of them. */
  function DoLand(s: Sys, p: nat): Sys {
    if p !in s.open then s
    else match s.open[p]
      case Landing(job, targets, began, _, _, _) =>
        if !Free(s.open, targets) then s
        else s.(rows := Revoke(s.rows, StillStanding(s.rows, targets), Stamp(job, began), Why(job)),
                open := if job.Excess? then s.open[p := Inserting(job.u)] else s.open - {p},
                swept := if job.Stale? then Max(s.swept, began) else s.swept)
      case Purging(targets) => if !Free(s.open, targets) then s else s.(rows := s.rows - targets, open := s.open - {p})
      case _ => s
  }

  /** The new token is random, so its digest is one never seen before. */
  function DoCreate(s: Sys, p: nat, h: Hash, d: Device, timeout: nat): Sys {
    if p !in s.open || !s.open[p].Inserting? || h in s.chain then s
    else
      var login := |s.logins|;
      var u, expires := s.open[p].u, s.now + timeout;
      s.(rows := Create(s.rows, s.now, h, u, d, expires),
         open := s.open - {p},
         logins := s.logins[login := Login(u, expires, s.now)],
         chain := s.chain[h := login])
  }

  function DoBegin(s: Sys, p: nat, h: Hash): Sys {
    if p in s.open || h !in s.chain then s else s.(open := s.open[p := Waiting(h, s.now)])
  }

  /** SELECT ... FOR UPDATE, once nobody else holds the row. */
  function DoLock(s: Sys, p: nat): Sys {
    if p !in s.open || !s.open[p].Waiting? || !Free(s.open, {s.open[p].hash}) then s
    else
      var (h, began) := (s.open[p].hash, s.open[p].began);
      if Rotatable(s.rows, began, h) then s.(open := s.open[p := Locked(h, began)]) else s.(open := s.open - {p})
  }

  /** The callback's checks; a refusal rolls back. */
  function DoApprove(s: Sys, p: nat, userActive: bool, idle: nat): Sys {
    if p !in s.open || !s.open[p].Locked? then s
    else
      var (h, began) := (s.open[p].hash, s.open[p].began);
      if h in s.rows && MayRefresh(s.rows[h], s.now, userActive, idle)
      then s.(open := s.open[p := Approved(h, began, s.now, idle)])
      else s.(open := s.open - {p})
  }

  function DoCommit(s: Sys, p: nat, next: Hash, d: Device): Sys {
    if p !in s.open || !s.open[p].Approved? || next in s.chain then s
    else
      var o := s.open[p];
      if o.hash !in s.rows || o.hash !in s.chain then s
      else s.(rows := Rotate(s.rows, o.began, o.hash, next, d),
              open := s.open - {p},
              chain := s.chain[next := s.chain[o.hash]],
              rotated := s.rotated[o.hash := o.began],
              successors := s.successors + {next},
              accepts := s.accepts + [Accept(o.hash, s.rows[o.hash].user, s.chain[o.hash], o.checked, o.began, o.idle)])
  }

  ghost function Step(s: Sys, a: Act, cap: nat): Sys {
    match a
    case Scans(p, job) => DoScan(s, p, job, cap)
    case Purges(p) => DoPurge(s, p)
    case Lands(p) => DoLand(s, p)
    case Creates(p, h, d, timeout) => DoCreate(s, p, h, d, timeout)
    case Begins(p, h) => DoBegin(s, p, h)
    case Locks(p) => DoLock(s, p)
    case Approves(p, userActive, idle) => DoApprove(s, p, userActive, idle)
    case Commits(p, next, d) => DoCommit(s, p, next, d)
    case GivesUp(p) => s.(open := s.open - {p})
    case LogsOut(h) => if Free(s.open, {h}) then s.(rows := Logout(s.rows, s.now, h)) else s
    case RevokesByID(h, u) => if Free(s.open, {h}) then s.(rows := RevokeByID(s.rows, s.now, h, u)) else s
    case UsesOidc(op) => if op.Pass? then s else s.(oidc := RefreshStore.Do(s.oidc, op))
    case Waits(d) => s.(now := s.now + d, oidc := RefreshStore.Do(s.oidc, RefreshStore.Pass(d)))
  }

  ghost function Run(s: Sys, acts: seq<Act>, cap: nat): Sys
    decreases |acts|
  {
    if acts == [] then s else Run(Step(s, acts[0], cap), acts[1..], cap)
  }

  // ---- What every step but INSERT and the rotation's commit does to the table ----

  /** Rows may go; a row that stays is as it was or was revoked just now for a reason other
      than rotation. */
  ghost predicate OnlyRevokes(t: Table, t': Table) {
    forall h :: h in t' ==>
      && h in t
      && (t'[h] == t[h] ||
          (!t[h].revoked && t'[h].revoked && t'[h].reason != Some(Rotation)
           && t'[h] == t[h].(revoked := true, lastUsed := t'[h].lastUsed, reason := t'[h].reason)
           && (t[h].lastUsed.Some? ==> t'[h].lastUsed.Some? && t'[h].reason != Some(StaleInitial))))
  }

  predicate WritesChains(a: Act) {
    a.Creates? || a.Commits?
  }

  /** Before a row is revoked its reason is NULL. */
  ghost predicate ReasonsOk(t: Table) {
    forall h :: h in t && !t[h].revoked ==> t[h].reason == None
  }

  /** A stale sweep's targets that still stand have never been used. */
  ghost predicate TargetsOk(t: Table, o: Open) {
    o.Landing? && o.job.Stale? ==> forall h :: h in o.targets && Stands(t, h) ==> t[h].lastUsed.None?
  }

  lemma RevokeOnlyRevokes(t: Table, hs: set<Hash>, stamp: Option<nat>, reason: Option<Reason>)
    requires forall h :: h in hs && h in t ==> !t[h].revoked
    requires reason != Some(Rotation) && ReasonsOk(t)
    requires reason == Some(StaleInitial) ==> forall h :: h in hs && h in t ==> t[h].lastUsed.None?
    ensures OnlyRevokes(t, Revoke(t, hs, stamp, reason))
  {
  }

  lemma LandingOnlyRevokes(s: Sys, p: nat)
    requires ReasonsOk(s.rows) && (p in s.open ==> TargetsOk(s.rows, s.open[p]))
    ensures OnlyRevokes(s.rows, DoLand(s, p).rows)
  {
    if p in s.open && s.open[p].Landing? {
      var o := s.open[p];
      RevokeOnlyRevokes(s.rows, StillStanding(s.rows, o.targets), Stamp(o.job, o.began), Why(o.job));
    }
  }

  lemma StepOnlyRevokes(s: Sys, a: Act, cap: nat)
    requires ReasonsOk(s.rows) && (forall p :: p in s.open ==> TargetsOk(s.rows, s.open[p])) && !WritesChains(a)
    ensures OnlyRevokes(s.rows, Step(s, a, cap).rows)
  {
    var t := s.rows;
    match a
    case Lands(p) => LandingOnlyRevokes(s, p);
    case LogsOut(h) => RevokeOnlyRevokes(t, (set x | x in t && x == h && !t[x].revoked), Some(s.now), Some(LoggedOut));
    case RevokesByID(h, u) =>
      RevokeOnlyRevokes(t, (set x | x in t && x == h && t[x].user == u && !t[x].revoked), Some(s.now), Some(RevokeById));
    case _ =>
  }

  // ---- The invariant: the rows and their history ----

  ghost predicate ChainOk(rows: Table, chain: map<Hash, nat>, logins: map<nat, Login>) {
    && (forall h :: h in rows ==> h in chain)
    && (forall h :: h in chain ==> chain[h] in logins)
    && (forall i :: i in logins ==> i < |logins|)
    && (forall h :: h in rows ==> rows[h].user == logins[chain[h]].user && rows[h].expires == logins[chain[h]].expires)
  }

  ghost predicate OneStanding(rows: Table, chain: map<Hash, nat>) {
    forall h, x :: Stands(rows, h) && Stands(rows, x) && h in chain && x in chain && chain[h] == chain[x] ==> h == x
  }

  ghost predicate RotatedOk(rows: Table, rotated: map<Hash, nat>, chain: map<Hash, nat>) {
    && (forall h :: h in rotated ==> h in chain)
    && (forall h :: h in rows ==> (h in rotated <==> rows[h].reason == Some(Rotation)))
    && (forall h :: h in rows && h in rotated ==> rows[h].revoked && rows[h].lastUsed == Some(rotated[h]))
  }

  ghost predicate SuccessorsOk(rows: Table, successors: set<Hash>, chain: map<Hash, nat>) {
    && (forall h :: h in successors ==> h in chain)
    && (forall h :: h in rows && h in successors ==> rows[h].lastUsed.Some? && rows[h].reason != Some(StaleInitial))
  }

  /** When the last accepted refresh of login began, or else when the login started. */
  function LastAccept(accepts: seq<Accept>, login: nat, started: nat): nat {
    if accepts == [] then started
    else
      var last := accepts[|accepts| - 1];
      if last.login == login then last.began else LastAccept(accepts[..|accepts| - 1], login, started)
  }

  /** Standing rows were last active when their login was. */
  ghost predicate ActiveOk(rows: Table, chain: map<Hash, nat>, logins: map<nat, Login>, accepts: seq<Accept>) {
    forall h :: Stands(rows, h) && h in chain && chain[h] in logins ==>
      LastActive(rows[h]) == LastAccept(accepts, chain[h], logins[chain[h]].started)
  }

  /** The i-th accepted refresh: in time, within the idle limit, of a token that it superseded. */
  ghost predicate AcceptOk(accepts: seq<Accept>, i: nat, logins: map<nat, Login>, rotated: map<Hash, nat>)
    requires i < |accepts|
  {
    var a := accepts[i];
    && a.login in logins && logins[a.login].user == a.user && a.hash in rotated && rotated[a.hash] == a.began
    && a.began <= a.at < logins[a.login].expires
    && (a.idle > 0 ==> a.at - LastAccept(accepts[..i], a.login, logins[a.login].started) <= a.idle)
  }

  ghost predicate AcceptsOk(accepts: seq<Accept>, logins: map<nat, Login>, rotated: map<Hash, nat>) {
    && (forall i :: 0 <= i < |accepts| ==> AcceptOk(accepts, i, logins, rotated))
    && (forall i, j :: 0 <= i < j < |accepts| ==> accepts[i].hash != accepts[j].hash)
  }

  ghost predicate HistoryOk(s: Sys) {
    && ReasonsOk(s.rows)
    && ChainOk(s.rows, s.chain, s.logins)
    && OneStanding(s.rows, s.chain)
    && RotatedOk(s.rows, s.rotated, s.chain)
    && SuccessorsOk(s.rows, s.successors, s.chain)
    && ActiveOk(s.rows, s.chain, s.logins, s.accepts)
    && AcceptsOk(s.accepts, s.logins, s.rotated)
  }

  // ---- The invariant: the open transactions ----

  /** What a statement on all of a user's unrevoked rows does not target of them. */
  function Spared(job: Job): set<Hash> {
    if job.Excess? then job.kept else {}
  }

  predicate Sweeping(job: Job) {
    job.Excess? || job.All? || job.Reset?
  }

  /** Of the rows that such a statement saw and that still stand its targets are all of its user's
      but the spared ones, and nobody else's. */
  ghost predicate Covering(rows: Table, o: Open)
    requires o.Landing? && Sweeping(o.job)
  {
    && o.targets !! Spared(o.job)
    && (forall h :: h in o.seen && Stands(rows, h) && rows[h].user == o.job.u ==> h in o.targets || h in Spared(o.job))
    && (forall h :: h in o.targets && Stands(rows, h) ==> rows[h].user == o.job.u)
  }

  ghost predicate OpenOk(o: Open, rows: Table, chain: map<Hash, nat>, now: nat) {
    && TargetsOk(rows, o)
    && match o
       case Waiting(h, began) => h in chain && began <= now
       case Locked(h, began) => Stands(rows, h) && began <= now
       case Approved(h, began, checked, idle) =>
         && Stands(rows, h) && began <= checked <= now && checked < rows[h].expires
         && (idle > 0 ==> checked - LastActive(rows[h]) <= idle)
       case Landing(job, targets, began, seen, _, _) =>
         targets <= seen <= chain.Keys && began <= now && (Sweeping(job) ==> Covering(rows, o))
       case _ => true
  }

  predicate HoldsAt(open: map<nat, Open>, p: nat, h: Hash) {
    p in open && Holds(open[p], h)
  }

  /** Nobody holds a row that somebody else holds. */
  ghost predicate LocksOk(open: map<nat, Open>) {
    forall p, q, h :: HoldsAt(open, p, h) && HoldsAt(open, q, h) ==> p == q
  }

  ghost predicate AllOpenOk(open: map<nat, Open>, rows: Table, chain: map<Hash, nat>, now: nat) {
    LocksOk(open) && forall p :: p in open ==> OpenOk(open[p], rows, chain, now)
  }

  ghost predicate OidcOk(oidc: RefreshStore.World, now: nat) {
    RefreshStore.Good(oidc.store, oidc.ledger) && oidc.store.now == now
  }

  ghost predicate Inv(s: Sys) {
    HistoryOk(s) && AllOpenOk(s.open, s.rows, s.chain, s.now) && OidcOk(s.oidc, s.now)
  }

  /** Rows change by being revoked or deleted, and a new row has a new digest. */
  ghost predicate Evolves(rows: Table, rows': Table, chain: map<Hash, nat>) {
    forall h :: h in rows' && h in chain ==> h in rows && (rows'[h] == rows[h] || rows'[h].revoked)
  }

  /** What was open stays right, as long as the rows it holds are untouched. */
  lemma StaysOpen(o: Open, rows: Table, rows': Table, chain: map<Hash, nat>, chain': map<Hash, nat>, now: nat, now': nat)
    requires OpenOk(o, rows, chain, now) && Evolves(rows, rows', chain)
    requires chain.Keys <= chain'.Keys && now <= now'
    requires forall h :: Holds(o, h) ==> h in rows' && h in rows && rows'[h] == rows[h]
    ensures OpenOk(o, rows', chain', now')
  {
    if o.Landing? {
      forall h | h in o.seen && Stands(rows', h) ensures Stands(rows, h) && rows'[h] == rows[h] {
        assert h in chain;
      }
    }
  }

  /** Only p's transaction changes. */
  ghost predicate OnlyAt(open: map<nat, Open>, open': map<nat, Open>, p: nat) {
    forall q :: q != p ==> (q in open' <==> q in open) && (q in open ==> open'[q] == open[q])
  }

  lemma StayOpen(s: Sys, s': Sys, p: nat)
    requires AllOpenOk(s.open, s.rows, s.chain, s.now) && OnlyAt(s.open, s'.open, p)
    requires Evolves(s.rows, s'.rows, s.chain) && s.chain.Keys <= s'.chain.Keys && s.now <= s'.now
    requires forall q, h :: q != p && HoldsAt(s.open, q, h) ==> h in s'.rows && h in s.rows && s'.rows[h] == s.rows[h]
    requires p in s'.open ==> OpenOk(s'.open[p], s'.rows, s'.chain, s'.now)
    requires forall q, h :: HoldsAt(s'.open, p, h) && HoldsAt(s.open, q, h) ==> q == p
    ensures AllOpenOk(s'.open, s'.rows, s'.chain, s'.now)
  {
    forall q | q in s'.open ensures OpenOk(s'.open[q], s'.rows, s'.chain, s'.now) {
      if q != p {
        assert forall h :: Holds(s.open[q], h) ==> HoldsAt(s.open, q, h);
        StaysOpen(s.open[q], s.rows, s'.rows, s.chain, s'.chain, s.now, s'.now);
      }
    }
    forall q, r, h | HoldsAt(s'.open, q, h) && HoldsAt(s'.open, r, h) ensures q == r {
      assert q != p ==> HoldsAt(s.open, q, h);
      assert r != p ==> HoldsAt(s.open, r, h);
    }
  }

  // ---- Steps that only revoke or delete ----

  lemma RevokingHistory(s: Sys, t: Table)
    requires HistoryOk(s) && OnlyRevokes(s.rows, t)
    ensures HistoryOk(s.(rows := t))
  {
    forall h, x | Stands(t, h) && Stands(t, x) && h in s.chain && x in s.chain && s.chain[h] == s.chain[x] ensures h == x {
      assert Stands(s.rows, h) && Stands(s.rows, x);
    }
    forall h | Stands(t, h) && h in s.chain && s.chain[h] in s.logins
      ensures LastActive(t[h]) == LastAccept(s.accepts, s.chain[h], s.logins[s.chain[h]].started)
    {
      assert Stands(s.rows, h);
    }
  }

  lemma RevokesEvolves(t: Table, t': Table, chain: map<Hash, nat>)
    requires OnlyRevokes(t, t')
    ensures Evolves(t, t', chain)
  {
  }

  lemma LandedRows(s: Sys, p: nat, q: nat, h: Hash)
    requires HoldsAt(s.open, q, h) && h in s.rows
    ensures h in DoLand(s, p).rows && DoLand(s, p).rows[h] == s.rows[h]
  {
  }

  lemma HeldStands(s: Sys, q: nat, h: Hash)
    requires AllOpenOk(s.open, s.rows, s.chain, s.now) && HoldsAt(s.open, q, h)
    ensures Stands(s.rows, h)
  {
    assert OpenOk(s.open[q], s.rows, s.chain, s.now);
  }

  lemma LandOpen(s: Sys, p: nat)
    requires AllOpenOk(s.open, s.rows, s.chain, s.now) && OnlyRevokes(s.rows, DoLand(s, p).rows)
    ensures AllOpenOk(DoLand(s, p).open, DoLand(s, p).rows, s.chain, s.now)
  {
    var s' := DoLand(s, p);
    if s' != s {
      RevokesEvolves(s.rows, s'.rows, s.chain);
      forall q, h | HoldsAt(s.open, q, h) ensures h in s'.rows && h in s.rows && s'.rows[h] == s.rows[h] {
        HeldStands(s, q, h);
        LandedRows(s, p, q, h);
      }
      StayOpen(s, s', p);
    }
  }

  lemma LandInv(s: Sys, p: nat)
    requires Inv(s)
    ensures Inv(DoLand(s, p))
  {
    assert p in s.open ==> OpenOk(s.open[p], s.rows, s.chain, s.now);
    LandingOnlyRevokes(s, p);
    RevokingHistory(s, DoLand(s, p).rows);
    LandOpen(s, p);
  }

  /** A statement on one row. */
  lemma OneRowInv(s: Sys, a: Act, h: Hash, cap: nat)
    requires Inv(s) && (a.LogsOut? || a.RevokesByID?) && a.h == h
    ensures Inv(Step(s, a, cap))
  {
    var t := Step(s, a, cap).rows;
    AllTargetsOk(s);
    StepOnlyRevokes(s, a, cap);
    RevokingHistory(s, t);
    OneRowChange(s, a, h, cap);
    OneRowOpen(s, t, h);
  }

  lemma AllTargetsOk(s: Sys)
    requires AllOpenOk(s.open, s.rows, s.chain, s.now)
    ensures forall q :: q in s.open ==> TargetsOk(s.rows, s.open[q])
  {
    forall q | q in s.open ensures TargetsOk(s.rows, s.open[q]) {
      assert OpenOk(s.open[q], s.rows, s.chain, s.now);
    }
  }

  lemma OneRowChange(s: Sys, a: Act, h: Hash, cap: nat)
    requires (a.LogsOut? || a.RevokesByID?) && a.h == h
    ensures var t := Step(s, a, cap).rows;
            t == s.rows || (Free(s.open, {h}) && forall x :: x in s.rows && x != h ==> x in t && t[x] == s.rows[x])
    ensures Step(s, a, cap) == s.(rows := Step(s, a, cap).rows)
  {
  }

  lemma OneRowOpen(s: Sys, t: Table, h: Hash)
    requires AllOpenOk(s.open, s.rows, s.chain, s.now) && OnlyRevokes(s.rows, t)
    requires t == s.rows || (Free(s.open, {h}) && forall x :: x in s.rows && x != h ==> x in t && t[x] == s.rows[x])
    ensures AllOpenOk(s.open, t, s.chain, s.now)
  {
    RevokesEvolves(s.rows, t, s.chain);
    forall q, x | HoldsAt(s.open, q, x) ensures x in t && x in s.rows && t[x] == s.rows[x] {
      HeldStands(s, q, x);
    }
    forall q | q in s.open ensures OpenOk(s.open[q], t, s.chain, s.now) {
      assert forall x :: Holds(s.open[q], x) ==> HoldsAt(s.open, q, x);
      StaysOpen(s.open[q], s.rows, t, s.chain, s.chain, s.now, s.now);
    }
  }

  // ---- Steps that change only the open transactions ----

  /** p's transaction becomes o, or ends. */
  lemma OpensInv(s: Sys, s': Sys, p: nat)
    requires Inv(s) && s' == s.(open := s'.open) && OnlyAt(s.open, s'.open, p)
    requires p in s'.open ==> OpenOk(s'.open[p], s.rows, s.chain, s.now)
    requires forall q, h :: HoldsAt(s'.open, p, h) && HoldsAt(s.open, q, h) ==> q == p
    ensures Inv(s')
  {
    forall q, h | HoldsAt(s.open, q, h) ensures h in s.rows {
      assert OpenOk(s.open[q], s.rows, s.chain, s.now);
    }
    StayOpen(s, s', p);
  }

  lemma ScanInv(s: Sys, p: nat, job: Job, cap: nat)
    requires Inv(s)
    ensures Inv(DoScan(s, p, job, cap))
  {
    var s' := DoScan(s, p, job, cap);
    if s' != s {
      assert s'.open[p] == Landing(job, Targets(s.rows, s.now, job), s.now, s.chain.Keys, |s.accepts|, |s.logins|);
      assert Targets(s.rows, s.now, job) <= s.rows.Keys;
      OpensInv(s, s', p);
    }
  }

  lemma PurgeInv(s: Sys, p: nat)
    requires Inv(s)
    ensures Inv(DoPurge(s, p))
  {
    if p !in s.open {
      OpensInv(s, DoPurge(s, p), p);
    }
  }

  lemma BeginInv(s: Sys, p: nat, h: Hash)
    requires Inv(s)
    ensures Inv(DoBegin(s, p, h))
  {
    if DoBegin(s, p, h) != s {
      OpensInv(s, DoBegin(s, p, h), p);
    }
  }

  lemma LockInv(s: Sys, p: nat)
    requires Inv(s)
    ensures Inv(DoLock(s, p))
  {
    var s' := DoLock(s, p);
    if s' != s {
      assert OpenOk(s.open[p], s.rows, s.chain, s.now);
      OpensInv(s, s', p);
    }
  }

  lemma ApproveInv(s: Sys, p: nat, userActive: bool, idle: nat)
    requires Inv(s)
    ensures Inv(DoApprove(s, p, userActive, idle))
  {
    var s' := DoApprove(s, p, userActive, idle);
    if s' != s {
      assert OpenOk(s.open[p], s.rows, s.chain, s.now);
      assert HoldsAt(s.open, p, s.open[p].hash);
      forall q, h | HoldsAt(s'.open, p, h) && HoldsAt(s.open, q, h) ensures q == p {
        assert HoldsAt(s.open, p, h);
      }
      OpensInv(s, s', p);
    }
  }

  lemma GiveUpInv(s: Sys, p: nat)
    requires Inv(s)
    ensures Inv(s.(open := s.open - {p}))
  {
    OpensInv(s, s.(open := s.open - {p}), p);
  }

  // ---- INSERT ----

  lemma CreatedChain(rows: Table, chain: map<Hash, nat>, logins: map<nat, Login>, h: Hash, login: nat, row: Row, l: Login)
    requires ChainOk(rows, chain, logins) && h !in chain && login == |logins| && login !in logins
    requires row.user == l.user && row.expires == l.expires
    ensures ChainOk(rows[h := row], chain[h := login], logins[login := l])
  {
  }

  lemma CreatedHistory(rows: Table, chain: map<Hash, nat>, rotated: map<Hash, nat>, successors: set<Hash>, h: Hash, login: nat, row: Row)
    requires RotatedOk(rows, rotated, chain) && SuccessorsOk(rows, successors, chain) && h !in chain && row.reason == None
    ensures RotatedOk(rows[h := row], rotated, chain[h := login]) && SuccessorsOk(rows[h := row], successors, chain[h := login])
  {
  }

  lemma CreatedStanding(rows: Table, chain: map<Hash, nat>, logins: map<nat, Login>, accepts: seq<Accept>, rotated: map<Hash, nat>,
                        h: Hash, login: nat, row: Row, l: Login)
    requires OneStanding(rows, chain) && ActiveOk(rows, chain, logins, accepts) && AcceptsOk(accepts, logins, rotated)
    requires h !in chain && login !in logins && (forall x :: x in rows ==> x in chain) && (forall x :: x in chain ==> chain[x] in logins)
    requires LastActive(row) == l.started
    ensures OneStanding(rows[h := row], chain[h := login])
    ensures ActiveOk(rows[h := row], chain[h := login], logins[login := l], accepts)
  {
    var rows', chain', logins' := rows[h := row], chain[h := login], logins[login := l];
    UnknownLogin(accepts, logins, rotated, login, l.started);
    forall x | Stands(rows', x) && x in chain' ensures x == h || (Stands(rows, x) && chain'[x] == chain[x] && chain[x] != login) {
    }
    forall x | Stands(rows', x) && x in chain' && chain'[x] in logins'
      ensures LastActive(rows'[x]) == LastAccept(accepts, chain'[x], logins'[chain'[x]].started)
    {
      if x != h { assert Stands(rows, x); }
    }
  }

  lemma UnknownLogin(accepts: seq<Accept>, logins: map<nat, Login>, rotated: map<Hash, nat>, login: nat, started: nat)
    requires AcceptsOk(accepts, logins, rotated) && login !in logins
    ensures LastAccept(accepts, login, started) == started
  {
    NeverAccepted(accepts, login, started, logins, rotated, |accepts|);
    assert accepts[..|accepts|] == accepts;
  }

  lemma {:induction false} NeverAccepted(accepts: seq<Accept>, login: nat, started: nat, logins: map<nat, Login>, rotated: map<Hash, nat>, n: nat)
    requires AcceptsOk(accepts, logins, rotated) && login !in logins && n <= |accepts|
    ensures LastAccept(accepts[..n], login, started) == started
  {
    if n > 0 {
      assert accepts[..n][..n - 1] == accepts[..n - 1];
      assert AcceptOk(accepts, n - 1, logins, rotated);
      NeverAccepted(accepts, login, started, logins, rotated, n - 1);
    }
  }

  lemma MoreLoginsAccepts(accepts: seq<Accept>, logins: map<nat, Login>, rotated: map<Hash, nat>, login: nat, l: Login)
    requires AcceptsOk(accepts, logins, rotated) && login !in logins
    ensures AcceptsOk(accepts, logins[login := l], rotated)
  {
    var logins' := logins[login := l];
    forall i | 0 <= i < |accepts| ensures AcceptOk(accepts, i, logins', rotated) {
      assert AcceptOk(accepts, i, logins, rotated);
    }
  }

  lemma CreateHistoryOk(s: Sys, p: nat, h: Hash, d: Device, timeout: nat)
    requires HistoryOk(s)
    ensures HistoryOk(DoCreate(s, p, h, d, timeout))
  {
    var s' := DoCreate(s, p, h, d, timeout);
    if s' != s {
      var u, login := s.open[p].u, |s.logins|;
      var row, l := Row(u, d, s.now + timeout, s.now, None, false, None), Login(u, s.now + timeout, s.now);
      assert s'.rows == s.rows[h := row] && s'.chain == s.chain[h := login] && s'.logins == s.logins[login := l];
      CreatedChain(s.rows, s.chain, s.logins, h, login, row, l);
      CreatedHistory(s.rows, s.chain, s.rotated, s.successors, h, login, row);
      CreatedStanding(s.rows, s.chain, s.logins, s.accepts, s.rotated, h, login, row, l);
      MoreLoginsAccepts(s.accepts, s.logins, s.rotated, login, l);
    }
  }

  lemma CreateInv(s: Sys, p: nat, h: Hash, d: Device, timeout: nat)
    requires Inv(s)
    ensures Inv(DoCreate(s, p, h, d, timeout))
  {
    var s' := DoCreate(s, p, h, d, timeout);
    if s' != s {
      CreateHistoryOk(s, p, h, d, timeout);
      forall x | x in s.rows ensures x in s.chain {
      }
      CreateOpen(s, p, h, d, timeout);
    }
  }

  lemma CreateOpen(s: Sys, p: nat, h: Hash, d: Device, timeout: nat)
    requires AllOpenOk(s.open, s.rows, s.chain, s.now) && (forall x :: x in s.rows ==> x in s.chain) && DoCreate(s, p, h, d, timeout) != s
    ensures var s' := DoCreate(s, p, h, d, timeout); AllOpenOk(s'.open, s'.rows, s'.chain, s'.now)
  {
    forall q, x | HoldsAt(s.open, q, x) ensures x in s.rows && x != h {
      HeldStands(s, q, x);
    }
    StayOpen(s, DoCreate(s, p, h, d, timeout), p);
  }

  // ---- The rotation's commit ----

  lemma LastAcceptGrown(accepts: seq<Accept>, a: Accept, login: nat, started: nat)
    ensures LastAccept(accepts + [a], login, started) == if a.login == login then a.began else LastAccept(accepts, login, started)
  {
    assert (accepts + [a])[..|accepts|] == accepts;
  }

  lemma RotateAccepts(accepts: seq<Accept>, a: Accept, logins: map<nat, Login>, rotated: map<Hash, nat>)
    requires AcceptsOk(accepts, logins, rotated) && a.hash !in rotated
    requires a.login in logins && a.user == logins[a.login].user && a.began <= a.at < logins[a.login].expires
    requires a.idle > 0 ==> a.at - LastAccept(accepts, a.login, logins[a.login].started) <= a.idle
    ensures AcceptsOk(accepts + [a], logins, rotated[a.hash := a.began])
  {
    var accepts', rotated' := accepts + [a], rotated[a.hash := a.began];
    forall i | 0 <= i < |accepts'| ensures AcceptOk(accepts', i, logins, rotated') {
      if i < |accepts| {
        assert AcceptOk(accepts, i, logins, rotated);
        assert accepts'[..i] == accepts[..i];
      } else {
        assert accepts'[..i] == accepts;
      }
    }
    forall i, j | 0 <= i < j < |accepts'| ensures accepts'[i].hash != accepts'[j].hash {
      assert AcceptOk(accepts, i, logins, rotated);
    }
  }

  /** rows' is rows with h superseded by next, as RotatedRows says. */
  ghost predicate Supersedes(rows: Table, rows': Table, began: nat, h: Hash, next: Hash, d: Device) {
    && Stands(rows, h) && next !in rows && rows'.Keys == rows.Keys + {next}
    && rows'[h] == Revoked(rows[h], Some(began), Some(Rotation))
    && rows'[next] == Row(rows[h].user, d, rows[h].expires, began, Some(began), false, None)
    && forall x :: x in rows && x != h ==> rows'[x] == rows[x]
  }

  lemma RotateTable(rows: Table, rows': Table, chain: map<Hash, nat>, logins: map<nat, Login>, began: nat, h: Hash, next: Hash, d: Device)
    requires ReasonsOk(rows) && ChainOk(rows, chain, logins) && Supersedes(rows, rows', began, h, next, d) && next !in chain
    ensures ReasonsOk(rows') && ChainOk(rows', chain[next := chain[h]], logins)
  {
  }

  lemma RotatedGrown(rows: Table, rows': Table, chain: map<Hash, nat>, rotated: map<Hash, nat>, successors: set<Hash>,
                     began: nat, h: Hash, next: Hash, d: Device)
    requires RotatedOk(rows, rotated, chain) && SuccessorsOk(rows, successors, chain) && h in chain && next !in chain
    requires Supersedes(rows, rows', began, h, next, d)
    ensures RotatedOk(rows', rotated[h := began], chain[next := chain[h]])
    ensures SuccessorsOk(rows', successors + {next}, chain[next := chain[h]])
  {
  }

  lemma RotateStanding(rows: Table, rows': Table, chain: map<Hash, nat>, logins: map<nat, Login>, accepts: seq<Accept>,
                       began: nat, h: Hash, next: Hash, d: Device, a: Accept)
    requires OneStanding(rows, chain) && ActiveOk(rows, chain, logins, accepts) && ChainOk(rows, chain, logins) && next !in chain
    requires Supersedes(rows, rows', began, h, next, d) && a.login == chain[h] && a.began == began
    ensures OneStanding(rows', chain[next := chain[h]]) && ActiveOk(rows', chain[next := chain[h]], logins, accepts + [a])
  {
    var chain', login := chain[next := chain[h]], chain[h];
    forall x | Stands(rows', x) ensures x == next || (Stands(rows, x) && chain'[x] == chain[x] && chain[x] != login) {
      if x != next { assert Stands(rows, x); }
    }
    forall x | Stands(rows', x) && x in chain' && chain'[x] in logins
      ensures LastActive(rows'[x]) == LastAccept(accepts + [a], chain'[x], logins[chain'[x]].started)
    {
      LastAcceptGrown(accepts, a, chain'[x], logins[chain'[x]].started);
    }
  }

  lemma CommitHistoryOk(s: Sys, p: nat, next: Hash, d: Device)
    requires HistoryOk(s) && p in s.open && s.open[p].Approved? && OpenOk(s.open[p], s.rows, s.chain, s.now) && next !in s.chain
    ensures HistoryOk(DoCommit(s, p, next, d))
  {
    var s', o := DoCommit(s, p, next, d), s.open[p];
    var h, a := o.hash, Accept(o.hash, s.rows[o.hash].user, s.chain[o.hash], o.checked, o.began, o.idle);
    assert Stands(s.rows, h) && h in s.chain;
    RotatedRows(s.rows, o.began, h, next, d);
    RotateTable(s.rows, s'.rows, s.chain, s.logins, o.began, h, next, d);
    RotatedGrown(s.rows, s'.rows, s.chain, s.rotated, s.successors, o.began, h, next, d);
    RotateStanding(s.rows, s'.rows, s.chain, s.logins, s.accepts, o.began, h, next, d, a);
    RotateAccepts(s.accepts, a, s.logins, s.rotated);
  }

  lemma CommitOpen(s: Sys, s': Sys, p: nat, h: Hash, next: Hash, d: Device)
    requires AllOpenOk(s.open, s.rows, s.chain, s.now) && HoldsAt(s.open, p, h) && next !in s.chain
    requires Supersedes(s.rows, s'.rows, s.open[p].began, h, next, d)
    requires s'.open == s.open - {p} && s.chain.Keys <= s'.chain.Keys && s'.now == s.now
    ensures AllOpenOk(s'.open, s'.rows, s'.chain, s'.now)
  {
    forall q, x | q != p && HoldsAt(s.open, q, x) ensures x in s'.rows && x in s.rows && s'.rows[x] == s.rows[x] {
      HeldStands(s, q, x);
      assert x != h;
    }
    StayOpen(s, s', p);
  }

  lemma CommitInv(s: Sys, p: nat, next: Hash, d: Device)
    requires Inv(s)
    ensures Inv(DoCommit(s, p, next, d))
  {
    var s' := DoCommit(s, p, next, d);
    if s' != s {
      var o := s.open[p];
      assert OpenOk(o, s.rows, s.chain, s.now);
      CommitHistoryOk(s, p, next, d);
      assert HoldsAt(s.open, p, o.hash) && next !in s.rows;
      RotatedRows(s.rows, o.began, o.hash, next, d);
      CommitOpen(s, s', p, o.hash, next, d);
    }
  }

  // ---- Every step ----

  lemma OidcStays(w: RefreshStore.World, now: nat, op: RefreshStore.Op)
    requires OidcOk(w, now) && !op.Pass?
    ensures OidcOk(RefreshStore.Do(w, op), now)
  {
    RefreshStore.DoGood(w, op);
    OidcClock(w, op);
  }

  lemma OidcClock(w: RefreshStore.World, op: RefreshStore.Op)
    requires !op.Pass?
    ensures RefreshStore.Do(w, op).store.now == w.store.now
  {
  }

  lemma OidcInv(s: Sys, op: RefreshStore.Op, cap: nat)
    requires Inv(s)
    ensures Inv(Step(s, UsesOidc(op), cap))
  {
    if !op.Pass? {
      OidcStays(s.oidc, s.now, op);
    }
  }

  lemma WaitInv(s: Sys, d: nat, cap: nat)
    requires Inv(s)
    ensures Inv(Step(s, Waits(d), cap))
  {
    var s' := Step(s, Waits(d), cap);
    RefreshStore.DoGood(s.oidc, RefreshStore.Pass(d));
    forall q | q in s.open ensures OpenOk(s.open[q], s'.rows, s'.chain, s'.now) {
      assert OpenOk(s.open[q], s.rows, s.chain, s.now);
    }
  }

  lemma StepInv(s: Sys, a: Act, cap: nat)
    requires Inv(s)
    ensures Inv(Step(s, a, cap))
  {
    match a
    case Scans(p, job) => ScanInv(s, p, job, cap);
    case Purges(p) => PurgeInv(s, p);
    case Lands(p) => LandInv(s, p);
    case Creates(p, h, d, timeout) => CreateInv(s, p, h, d, timeout);
    case Begins(p, h) => BeginInv(s, p, h);
    case Locks(p) => LockInv(s, p);
    case Approves(p, userActive, idle) => ApproveInv(s, p, userActive, idle);
    case Commits(p, next, d) => CommitInv(s, p, next, d);
    case GivesUp(p) => GiveUpInv(s, p);
    case LogsOut(h) => OneRowInv(s, a, h, cap);
    case RevokesByID(h, _) => OneRowInv(s, a, h, cap);
    case UsesOidc(op) => OidcInv(s, op, cap);
    case Waits(d) => WaitInv(s, d, cap);
  }

  lemma {:induction false} RunInv(s: Sys, acts: seq<Act>, cap: nat)
    requires Inv(s)
    ensures Inv(Run(s, acts, cap))
    decreases |acts|
  {
    if acts != [] {
      StepInv(s, acts[0], cap);
      RunInv(Step(s, acts[0], cap), acts[1..], cap);
    }
  }
}
