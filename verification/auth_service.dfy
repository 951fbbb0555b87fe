/** Completing a login, refreshing, and the timeout settings (auth/service.go). */
module AuthService {
  import opened Names
  import opened SessionTable
  import opened SessionRepository

  // ---- Timeout readers: a missing or non-positive setting gives the default ----

  const DEFAULT_IDLE: nat := 300
  const DEFAULT_ADMIN_IDLE: nat := 180
  const DEFAULT_ABSOLUTE: nat := 8 * 3600

  /** setting is what GetInt returns: the stored integer, or the default when there is none. */
  function Seconds(setting: Option<int>, default: nat): nat {
    if setting.None? || setting.value <= 0 then default else setting.value
  }

  /** The idle limit in force; an admin role selects the stricter setting. */
  function IdleLimit(userIdle: Option<int>, adminIdle: Option<int>, isAdmin: bool): nat {
    if isAdmin then Seconds(adminIdle, DEFAULT_ADMIN_IDLE) else Seconds(userIdle, DEFAULT_IDLE)
  }

  /** No setting switches the idle check off, so MayRefresh always applies it. */
  lemma IdleAlwaysEnforced(userIdle: Option<int>, adminIdle: Option<int>, isAdmin: bool, r: Row, now: nat, userActive: bool)
    ensures var limit := IdleLimit(userIdle, adminIdle, isAdmin);
            && limit > 0
            && (MayRefresh(r, now, userActive, limit) <==>
                  userActive && now < r.expires && now - (if r.lastUsed.Some? then r.lastUsed.value else r.created) <= limit)
  {
  }

  /** The table after the three statements of completeLogin. */
  function LoggedIn(t: Table, now: nat, user: UserId, device: Device, kept: set<Hash>, hash: Hash, expires: nat): Table {
    Create(EvictExcess(RevokeForDevice(t, now, user, device), user, kept), now, hash, user, device, expires)
  }

  lemma StandingAfterRevoke(t: Table, hs: set<Hash>, stamp: Option<nat>, reason: Option<Reason>, u: UserId)
    ensures Standing(Revoke(t, hs, stamp, reason), u) == Standing(t, u) - hs
    ensures forall h :: h in t && h !in hs ==> Revoke(t, hs, stamp, reason)[h] == t[h]
  {
  }

  lemma StandingAfterLogin(t: Table, now: nat, user: UserId, device: Device, kept: set<Hash>, hash: Hash, expires: nat, u: UserId)
    requires hash !in t && kept <= Standing(RevokeForDevice(t, now, user, device), user)
    ensures Standing(LoggedIn(t, now, user, device, kept, hash, expires), u) == if u == user then kept + {hash} else Standing(t, u)
  {
    var t1 := RevokeForDevice(t, now, user, device);
    StandingAfterRevoke(t, SameDevice(t, now, user, device), Some(now), Some(DeviceReplaced), u);
    StandingAfterRevoke(t1, Standing(t1, user) - kept, None, Some(Evicted), u);
    StandingAfterCreate(EvictExcess(t1, user, kept), now, hash, user, device, expires, u);
  }

  /** The new session stands, the user has at most cap of them, the others stood before on
      some other device or had expired, and nobody else's session is touched. */
  lemma LoginWithinCap(t: Table, now: nat, user: UserId, device: Device, cap: nat, kept: set<Hash>, hash: Hash, expires: nat)
    requires cap >= 1 && hash !in t && MostRecent(RevokeForDevice(t, now, user, device), user, cap - 1, kept)
    ensures var t' := LoggedIn(t, now, user, device, kept, hash, expires);
            && hash in Standing(t', user) && |Standing(t', user)| <= cap
            && (forall h :: h in Standing(t', user) && h != hash ==>
                  h in Standing(t, user) && !(t[h].device == device && t[h].expires > now))
            && (forall v :: v != user ==> Standing(t', v) == Standing(t, v))
  {
    StandingAfterLogin(t, now, user, device, kept, hash, expires, user);
    StandingAfterRevoke(t, SameDevice(t, now, user, device), Some(now), Some(DeviceReplaced), user);
    forall v | v != user ensures Standing(LoggedIn(t, now, user, device, kept, hash, expires), v) == Standing(t, v) {
      StandingAfterLogin(t, now, user, device, kept, hash, expires, v);
    }
  }

  lemma AtMostCap(t: Table, now: nat, user: UserId, device: Device, cap: nat, kept: set<Hash>, hash: Hash, expires: nat)
    requires cap >= 1 && hash !in t && MostRecent(RevokeForDevice(t, now, user, device), user, cap - 1, kept)
    ensures |Standing(LoggedIn(t, now, user, device, kept, hash, expires), user)| <= cap
  {
    LoginWithinCap(t, now, user, device, cap, kept, hash, expires);
  }

  /** Row by row: what a login does to a row that was there. */
  lemma LoginRows(t: Table, now: nat, user: UserId, device: Device, kept: set<Hash>, hash: Hash, expires: nat, h: Hash)
    requires h in t && hash !in t
    ensures var (t', r) := (LoggedIn(t, now, user, device, kept, hash, expires), t[h]);
            && h in t'
            && t'[h] == if r.user == user && !r.revoked && r.expires > now && r.device == device
                        then Row(r.user, r.device, r.expires, r.created, Some(now), true, Some(DeviceReplaced))
                        else if r.user == user && !r.revoked && h !in kept
                        then Row(r.user, r.device, r.expires, r.created, r.lastUsed, true, Some(Evicted))
                        else r
  {
  }

  /** An unrevoked row that is not of this device, or has expired, goes only when cap - 1 rows at
      least as recently active stand in its place. */
  lemma EvictedForOthers(t: Table, now: nat, user: UserId, device: Device, cap: nat, kept: set<Hash>, hash: Hash, expires: nat, x: Hash)
    requires cap >= 1 && hash !in t && MostRecent(RevokeForDevice(t, now, user, device), user, cap - 1, kept)
    requires x in t && t[x].user == user && !t[x].revoked && !(t[x].expires > now && t[x].device == device)
    ensures var t' := LoggedIn(t, now, user, device, kept, hash, expires);
            x in t' && (t'[x].revoked ==>
              && |kept| == cap - 1
              && forall h :: h in kept ==>
                   && h in t && h in t' && t[h].user == user && !t'[h].revoked
                   && (if t[x].lastUsed.Some? then t[x].lastUsed.value else t[x].created)
                      <= if t[h].lastUsed.Some? then t[h].lastUsed.value else t[h].created)
  {
    var t1 := RevokeForDevice(t, now, user, device);
    LoginRows(t, now, user, device, kept, hash, expires, x);
    StandingAfterRevoke(t, SameDevice(t, now, user, device), Some(now), Some(DeviceReplaced), user);
    assert x in Standing(t1, user);
    assert |Standing(t1, user) - kept| == |Standing(t1, user)| - |kept|;
    assert x !in kept ==> x in Standing(t1, user) - kept;
    forall h | h in kept ensures h in Standing(t1, user) && h in t {
    }
    forall h | h in kept ensures h in LoggedIn(t, now, user, device, kept, hash, expires) && !LoggedIn(t, now, user, device, kept, hash, expires)[h].revoked {
      LoginRows(t, now, user, device, kept, hash, expires, h);
    }
  }

  /** With fewer than cap unrevoked rows exactly the unexpired ones of this device go. */
  lemma RoomForAll(t: Table, now: nat, user: UserId, device: Device, cap: nat, kept: set<Hash>, hash: Hash, expires: nat)
    requires cap >= 1 && hash !in t && MostRecent(RevokeForDevice(t, now, user, device), user, cap - 1, kept)
    requires |set h | h in t && t[h].user == user && !t[h].revoked| < cap
    ensures var t' := LoggedIn(t, now, user, device, kept, hash, expires);
            forall h :: h in t ==>
              var r := t[h];
              h in t' && (t'[h] != r <==> r.user == user && !r.revoked && r.expires > now && r.device == device)
  {
    var t1 := RevokeForDevice(t, now, user, device);
    var rows := Standing(t, user);
    assert rows == set h | h in t && t[h].user == user && !t[h].revoked;
    StandingAfterRevoke(t, SameDevice(t, now, user, device), Some(now), Some(DeviceReplaced), user);
    AllKept(rows, Standing(t1, user), SameDevice(t, now, user, device), kept, cap);
    forall h | h in t
      ensures var (t', r) := (LoggedIn(t, now, user, device, kept, hash, expires), t[h]);
              h in t' && (t'[h] != r <==> r.user == user && !r.revoked && r.expires > now && r.device == device)
    {
      LoginRows(t, now, user, device, kept, hash, expires, h);
      assert h in SameDevice(t, now, user, device) <==> t[h].user == user && !t[h].revoked && t[h].expires > now && t[h].device == device;
    }
  }

  lemma LoginOnRows(t: Table, now: nat, user: UserId, device: Device, cap: nat, kept: set<Hash>, hash: Hash, expires: nat, t': Table)
    requires cap >= 1 && hash !in t && MostRecent(RevokeForDevice(t, now, user, device), user, cap - 1, kept)
    requires t' == LoggedIn(t, now, user, device, kept, hash, expires)
    ensures t'.Keys == t.Keys + {hash} && t'[hash] == Row(user, device, expires, now, None, false, None)
    ensures forall h :: h in t ==>
              var r := t[h];
              t'[h] == if r.user == user && !r.revoked && r.expires > now && r.device == device
                       then Row(r.user, r.device, r.expires, r.created, Some(now), true, Some(DeviceReplaced))
                       else if r.user == user && !r.revoked && h !in kept
                       then Row(r.user, r.device, r.expires, r.created, r.lastUsed, true, Some(Evicted))
                       else r
    ensures forall x :: x in t && t[x].user == user && !t[x].revoked && !(t[x].expires > now && t[x].device == device) && t'[x].revoked ==>
              && |kept| == cap - 1
              && forall h :: h in kept ==>
                   && h in t && t[h].user == user && !t'[h].revoked
                   && (if t[x].lastUsed.Some? then t[x].lastUsed.value else t[x].created)
                      <= if t[h].lastUsed.Some? then t[h].lastUsed.value else t[h].created
    ensures |set h | h in t && t[h].user == user && !t[h].revoked| < cap ==>
              forall h :: h in t ==>
                var r := t[h];
                t'[h] != r <==> r.user == user && !r.revoked && r.expires > now && r.device == device
  {
    forall h | h in t {
      LoginRows(t, now, user, device, kept, hash, expires, h);
    }
    forall x | x in t && t[x].user == user && !t[x].revoked && !(t[x].expires > now && t[x].device == device) {
      EvictedForOthers(t, now, user, device, cap, kept, hash, expires, x);
    }
    if |set h | h in t && t[h].user == user && !t[h].revoked| < cap {
      RoomForAll(t, now, user, device, cap, kept, hash, expires);
    }
  }

  lemma AllKept(rows: set<Hash>, others: set<Hash>, same: set<Hash>, kept: set<Hash>, cap: nat)
    requires |rows| < cap && others == rows - same && kept <= others
    requires |kept| == if cap - 1 < |others| then cap - 1 else |others|
    ensures kept == others
  {
    assert |others| <= |rows| by {
      assert others + (rows * same) == rows;
    }
    assert |others - kept| == |others| - |kept|;
  }

  datatype Outcome = Accepted(user: UserId) | Rejected | ReuseDetected(user: UserId)

  class Service {
    const sessions: Repository

    constructor (sessions: Repository)
      ensures this.sessions == sessions
    {
      this.sessions := sessions;
    }

    /** Close the device's older session, evict down to one below the cap, insert. */
    method CompleteLogin(user: UserId, device: Device, hash: Hash, cap: nat, timeout: Option<int>) returns (ghost kept: set<Hash>)
      requires cap >= 1 && hash !in sessions.rows
      modifies sessions`rows
      ensures sessions.rows.Keys == old(sessions.rows).Keys + {hash}
      ensures sessions.rows[hash] == Row(user, device, sessions.now + (if timeout.Some? && timeout.value > 0 then timeout.value else 8 * 3600),
                                         sessions.now, None, false, None)
      // every other row: replaced on this device, evicted, or left alone
      ensures forall h :: h in old(sessions.rows) ==>
                var r := old(sessions.rows)[h];
                sessions.rows[h] == if r.user == user && !r.revoked && r.expires > sessions.now && r.device == device
                                    then Row(r.user, r.device, r.expires, r.created, Some(sessions.now), true, Some(DeviceReplaced))
                                    else if r.user == user && !r.revoked && h !in kept
                                    then Row(r.user, r.device, r.expires, r.created, r.lastUsed, true, Some(Evicted))
                                    else r
      // evicted only when cap - 1 rows at least as recently active stand in its place
      ensures forall x :: x in old(sessions.rows) && old(sessions.rows)[x].user == user && !old(sessions.rows)[x].revoked
                          && !(old(sessions.rows)[x].expires > sessions.now && old(sessions.rows)[x].device == device) && sessions.rows[x].revoked ==>
                && |kept| == cap - 1
                && forall h :: h in kept ==>
                     && h in old(sessions.rows) && old(sessions.rows)[h].user == user && !sessions.rows[h].revoked
                     && (if old(sessions.rows)[x].lastUsed.Some? then old(sessions.rows)[x].lastUsed.value else old(sessions.rows)[x].created)
                        <= if old(sessions.rows)[h].lastUsed.Some? then old(sessions.rows)[h].lastUsed.value else old(sessions.rows)[h].created
      // so with room for one more nothing but the rows of this device goes
      ensures |set h | h in old(sessions.rows) && old(sessions.rows)[h].user == user && !old(sessions.rows)[h].revoked| < cap ==>
                forall h :: h in old(sessions.rows) ==>
                  var r := old(sessions.rows)[h];
                  sessions.rows[h] != r <==> r.user == user && !r.revoked && r.expires > sessions.now && r.device == device
      ensures |Standing(sessions.rows, user)| <= cap
    {
      ghost var t := sessions.rows;
      kept := OpenSession(user, device, hash, cap, timeout);
      LoginOnRows(t, sessions.now, user, device, cap, kept, hash, sessions.now + Seconds(timeout, DEFAULT_ABSOLUTE), sessions.rows);
    }

    /** The three statements, as functions of the table. */
    method OpenSession(user: UserId, device: Device, hash: Hash, cap: nat, timeout: Option<int>) returns (ghost kept: set<Hash>)
      requires cap >= 1 && hash !in sessions.rows
      modifies sessions`rows
      ensures MostRecent(RevokeForDevice(old(sessions.rows), sessions.now, user, device), user, cap - 1, kept)
      ensures sessions.rows == LoggedIn(old(sessions.rows), sessions.now, user, device, kept, hash,
                                        sessions.now + Seconds(timeout, DEFAULT_ABSOLUTE))
      ensures |Standing(sessions.rows, user)| <= cap
    {
      ghost var before := sessions.rows;
      kept := MakeRoom(user, device, cap - 1);
      var seconds := Timeout(timeout, DEFAULT_ABSOLUTE);
      sessions.Create(user, hash, device, sessions.now + seconds);
      AtMostCap(before, sessions.now, user, device, cap, kept, hash, sessions.now + seconds);
    }

    method MakeRoom(user: UserId, device: Device, keep: nat) returns (ghost kept: set<Hash>)
      modifies sessions`rows
      ensures MostRecent(RevokeForDevice(old(sessions.rows), sessions.now, user, device), user, keep, kept)
      ensures sessions.rows == EvictExcess(RevokeForDevice(old(sessions.rows), sessions.now, user, device), user, kept)
      ensures sessions.rows.Keys == old(sessions.rows).Keys
    {
      sessions.RevokeForDevice(user, device);
      kept := sessions.EvictExcessSessions(user, keep);
    }

    /** sessionIdleTimeout, adminSessionIdleTimeout and sessionAbsoluteTimeout. */
    method Timeout(setting: Option<int>, default: nat) returns (seconds: nat)
      ensures seconds == if setting.Some? && setting.value > 0 then setting.value else default
    {
      if setting.None? || setting.value <= 0 {
        return default;
      }
      seconds := setting.value;
    }

    method HasAdminRole(roles: seq<string>) returns (isAdmin: bool)
      ensures isAdmin <==> "admin" in roles
    {
      for i := 0 to |roles|
        invariant "admin" !in roles[..i]
      {
        if roles[i] == "admin" {
          return true;
        }
      }
      assert roles[..|roles|] == roles;
      isAdmin := false;
    }

    /** Rotate; when that fails, look for reuse and if there is any revoke everything. */
    method RefreshTokens(hash: Hash, next: Hash, device: Device, userActive: bool, roles: seq<string>,
                         userIdle: Option<int>, adminIdle: Option<int>) returns (outcome: Outcome)
      requires next !in sessions.rows && sessions.oidc.Valid()
      modifies sessions`rows, sessions.oidc
      ensures sessions.oidc.Valid()
      ensures outcome.Accepted? <==>
                Rotatable(old(sessions.rows), sessions.now, hash)
                && MayRefresh(old(sessions.rows)[hash], sessions.now, userActive, IdleLimit(userIdle, adminIdle, "admin" in roles))
      ensures outcome.Accepted? ==>
                && sessions.rows == Rotate(old(sessions.rows), sessions.now, hash, next, device)
                && sessions.oidc.live == old(sessions.oidc.live)
      ensures outcome.ReuseDetected? <==> CheckReuse(old(sessions.rows), sessions.now, hash).Some?
      ensures outcome.ReuseDetected? ==>
                && outcome.user == CheckReuse(old(sessions.rows), sessions.now, hash).value
                && sessions.rows == RevokeAllForUser(old(sessions.rows), outcome.user)
                && Standing(sessions.rows, outcome.user) == {}
                && forall t :: t in sessions.oidc.live <==>
                     t in old(sessions.oidc.live) && old(sessions.oidc.live)[t].sess.user != outcome.user
      ensures outcome.Rejected? ==> sessions.rows == old(sessions.rows) && sessions.oidc.live == old(sessions.oidc.live)
      // who may refresh: the row unrevoked and unexpired, its user active, and used within the limit
      ensures outcome.Accepted? <==>
                && hash in old(sessions.rows) && userActive
                && var r := old(sessions.rows)[hash];
                   && !r.revoked && sessions.now < r.expires
                   && sessions.now - (if r.lastUsed.Some? then r.lastUsed.value else r.created)
                      <= if "admin" in roles then (if adminIdle.Some? && adminIdle.value > 0 then adminIdle.value else 180)
                         else (if userIdle.Some? && userIdle.value > 0 then userIdle.value else 300)
      ensures outcome.Accepted? ==>
                var r := old(sessions.rows)[hash];
                && outcome.user == r.user
                && sessions.rows == old(sessions.rows)[hash := Row(r.user, r.device, r.expires, r.created, Some(sessions.now), true, Some(Rotation))]
                                                      [next := Row(r.user, device, r.expires, sessions.now, Some(sessions.now), false, None)]
      ensures outcome.ReuseDetected? <==>
                && hash in old(sessions.rows) && old(sessions.rows)[hash].revoked && old(sessions.rows)[hash].reason == Some(Rotation)
                && (if old(sessions.rows)[hash].lastUsed.Some? then old(sessions.rows)[hash].lastUsed.value
                    else old(sessions.rows)[hash].created) <= sessions.now - 5
      ensures outcome.ReuseDetected? ==>
                && outcome.user == old(sessions.rows)[hash].user && sessions.rows.Keys == old(sessions.rows).Keys
                && forall h :: h in sessions.rows ==>
                     var r := old(sessions.rows)[h];
                     sessions.rows[h] == if r.user == outcome.user && !r.revoked
                                         then Row(r.user, r.device, r.expires, r.created, r.lastUsed, true, Some(MassRevoke)) else r
      ensures !userActive && !outcome.ReuseDetected? ==> outcome.Rejected? && sessions.rows == old(sessions.rows)
    {
      var isAdmin := HasAdminRole(roles);
      var idleLimit := Timeout(userIdle, DEFAULT_IDLE);
      if isAdmin {
        idleLimit := Timeout(adminIdle, DEFAULT_ADMIN_IDLE);
      }
      var rotation := sessions.RotateSession(hash, next, device, userActive, idleLimit);
      if rotation.Rotated? {
        return Accepted(rotation.user);
      }
      var owner := sessions.CheckReuse(hash);
      if owner.Some? {
        sessions.RevokeAllForUser(owner.value);
        return ReuseDetected(owner.value);
      }
      outcome := Rejected;
    }
  }
}
