/** The session repository and the two auth-service operations that drive it, with the
    table updated in place (session/repository.go, auth/service.go). */
module SessionRepository {
  import opened Names
  import opened SessionTable
  import opened RefreshTokens

  datatype RotateResult = NoRow | Refused | Rotated(user: UserId)

  class Repository {
    var now: nat
    var rows: Table
    const oidc: RefreshTokenStore

    constructor (oidc: RefreshTokenStore)
      ensures rows == map[] && now == 0 && this.oidc == oidc
    {
      this.now, this.rows, this.oidc := 0, map[], oidc;
    }

    /** UPDATE sessions SET is_revoked = true ... WHERE is_revoked = false AND (row in hs). */
    method Update(hs: set<Hash>, stamp: Option<nat>, reason: Option<Reason>) returns (affected: nat)
      requires hs <= rows.Keys
      modifies this`rows
      ensures rows == SessionTable.Revoke(old(rows), hs, stamp, reason) && affected == |hs|
      ensures rows.Keys == old(rows).Keys
      ensures forall h :: h in rows ==>
                var r := old(rows)[h];
                rows[h] == if h !in hs then r else Row(r.user, r.device, r.expires, r.created,
                                                       if stamp.Some? then stamp else r.lastUsed, true,
                                                       if reason.Some? then reason else r.reason)
    {
      var todo := hs;
      while todo != {}
        invariant todo <= hs && rows == SessionTable.Revoke(old(rows), hs - todo, stamp, reason)
        decreases todo
      {
        var h :| h in todo;
        var r := rows[h].(revoked := true);
        if stamp.Some? {
          r := r.(lastUsed := stamp);
        }
        if reason.Some? {
          r := r.(reason := reason);
        }
        rows := rows[h := r];
        todo := todo - {h};
      }
      affected := |hs|;
    }

    method Create(user: UserId, hash: Hash, device: Device, expires: nat)
      requires hash !in rows
      modifies this`rows
      ensures rows == SessionTable.Create(old(rows), now, hash, user, device, expires)
      ensures rows == old(rows)[hash := Row(user, device, expires, now, None, false, None)]
    {
      rows := rows[hash := Row(user, device, expires, now, None, false, None)];
    }

    method RevokeForDevice(user: UserId, device: Device)
      modifies this`rows
      ensures rows == SessionTable.RevokeForDevice(old(rows), now, user, device) && rows.Keys == old(rows).Keys
      ensures forall h :: h in rows ==>
                var r := old(rows)[h];
                rows[h] == if r.user == user && !r.revoked && r.expires > now && r.device == device
                           then Row(r.user, r.device, r.expires, r.created, Some(now), true, Some(DeviceReplaced)) else r
    {
      var _ := Update(SameDevice(rows, now, user, device), Some(now), Some(DeviceReplaced));
    }

    method RotateSession(oldHash: Hash, next: Hash, device: Device, userActive: bool, idleLimit: nat) returns (r: RotateResult)
      requires next !in rows
      modifies this`rows
      ensures r.NoRow? <==> !Rotatable(old(rows), now, oldHash)
      ensures r.Refused? <==> Rotatable(old(rows), now, oldHash) && !MayRefresh(old(rows)[oldHash], now, userActive, idleLimit)
      ensures r.Rotated? ==> r.user == old(rows)[oldHash].user
      ensures rows == if r.Rotated? then Rotate(old(rows), now, oldHash, next, device) else old(rows)
      ensures r.NoRow? <==> !(oldHash in old(rows) && !old(rows)[oldHash].revoked && old(rows)[oldHash].expires > now)
      ensures r.Rotated? <==>
                && oldHash in old(rows) && !old(rows)[oldHash].revoked && old(rows)[oldHash].expires > now && userActive
                && (idleLimit > 0 ==>
                      var o := old(rows)[oldHash];
                      now - (if o.lastUsed.Some? then o.lastUsed.value else o.created) <= idleLimit)
      ensures r.Rotated? ==>
                var o := old(rows)[oldHash];
                rows == old(rows)[oldHash := Row(o.user, o.device, o.expires, o.created, Some(now), true, Some(Rotation))]
                                 [next := Row(o.user, device, o.expires, now, Some(now), false, None)]
    {
      if !Rotatable(rows, now, oldHash) {
        return NoRow;
      }
      var row := rows[oldHash];
      if !userActive {
        return Refused;
      }
      if idleLimit > 0 && now - LastActive(row) > idleLimit {
        return Refused;
      }
      var _ := Update({oldHash}, Some(now), Some(Rotation));
      rows := rows[next := Row(row.user, device, row.expires, now, Some(now), false, None)];
      r := Rotated(row.user);
    }

    method Revoke(hash: Hash)
      modifies this`rows
      ensures rows == Logout(old(rows), now, hash) && rows.Keys == old(rows).Keys
      ensures forall h :: h in rows ==>
                var r := old(rows)[h];
                rows[h] == if h == hash && !r.revoked
                           then Row(r.user, r.device, r.expires, r.created, Some(now), true, Some(LoggedOut)) else r
    {
      var _ := Update((set x | x in rows && x == hash && !rows[x].revoked), Some(now), Some(LoggedOut));
    }

    method CheckReuse(hash: Hash) returns (user: Option<UserId>)
      ensures user == SessionTable.CheckReuse(rows, now, hash)
      ensures user.Some? <==>
                && hash in rows && rows[hash].revoked && rows[hash].reason == Some(Rotation)
                && (if rows[hash].lastUsed.Some? then rows[hash].lastUsed.value else rows[hash].created) <= now - 5
      ensures user.Some? ==> user.value == rows[hash].user
    {
      if hash in rows && rows[hash].revoked && rows[hash].reason == Some(Rotation)
         && LastActive(rows[hash]) <= now - TOKEN_REUSE_GRACE
      {
        return Some(rows[hash].user);
      }
      user := None;
    }

    /** The sessions and then, in Redis, the OIDC refresh tokens. */
    method RevokeAllForUser(user: UserId)
      requires oidc.Valid()
      modifies this`rows, oidc
      ensures oidc.Valid()
      ensures rows == SessionTable.RevokeAllForUser(old(rows), user) && Standing(rows, user) == {}
      ensures rows.Keys == old(rows).Keys
      ensures forall h :: h in rows ==>
                var r := old(rows)[h];
                rows[h] == if r.user == user && !r.revoked
                           then Row(r.user, r.device, r.expires, r.created, r.lastUsed, true, Some(MassRevoke)) else r
      ensures forall t :: t in oidc.live <==> t in old(oidc.live) && old(oidc.live)[t].sess.user != user
    {
      var _ := Update(Standing(rows, user), None, Some(MassRevoke));
      oidc.RevokeAllForUser(user);
    }

    method RevokeOtherSessions(user: UserId, current: Hash)
      modifies this`rows
      ensures rows == SessionTable.RevokeOtherSessions(old(rows), now, user, current) && rows.Keys == old(rows).Keys
      ensures forall h :: h in rows ==>
                var r := old(rows)[h];
                rows[h] == if r.user == user && h != current && !r.revoked && r.expires > now
                           then Row(r.user, r.device, r.expires, r.created, Some(now), true, Some(RevokeOthers)) else r
    {
      var _ := Update(OtherRows(rows, now, user, current), Some(now), Some(RevokeOthers));
    }

    /** SELECT id ... ORDER BY COALESCE(last_used_at, created_at) DESC LIMIT keep. */
    method SelectNewest(user: UserId, keep: nat) returns (kept: set<Hash>)
      ensures MostRecent(rows, user, keep, kept)
    {
      kept := {};
      var rest := Standing(rows, user);
      while rest != {} && |kept| < keep
        invariant rest == Standing(rows, user) - kept && kept <= Standing(rows, user)
        invariant |kept| + |rest| == |Standing(rows, user)| && |kept| <= keep
        invariant forall h, x :: h in kept && x in rest ==> LastActive(rows[x]) <= LastActive(rows[h])
        decreases rest
      {
        ghost var newest := Newest(rows, rest);
        var h :| h in rest && forall x :: x in rest ==> LastActive(rows[x]) <= LastActive(rows[h]);
        kept := kept + {h};
        rest := rest - {h};
      }
    }

    method EvictExcessSessions(user: UserId, keep: nat) returns (ghost kept: set<Hash>)
      modifies this`rows
      ensures MostRecent(old(rows), user, keep, kept)
      ensures rows == EvictExcess(old(rows), user, kept) && rows.Keys == old(rows).Keys
      ensures forall h :: h in kept ==> h in old(rows) && old(rows)[h].user == user && !old(rows)[h].revoked
      ensures |kept| <= keep && (|kept| < keep ==> forall h :: h in rows && old(rows)[h].user == user && !old(rows)[h].revoked ==> h in kept)
      ensures forall h, x :: h in kept && x in rows && old(rows)[x].user == user && !old(rows)[x].revoked && x !in kept ==>
                (if old(rows)[x].lastUsed.Some? then old(rows)[x].lastUsed.value else old(rows)[x].created)
                <= if old(rows)[h].lastUsed.Some? then old(rows)[h].lastUsed.value else old(rows)[h].created
      ensures forall h :: h in rows ==>
                var r := old(rows)[h];
                rows[h] == if r.user == user && !r.revoked && h !in kept
                           then Row(r.user, r.device, r.expires, r.created, r.lastUsed, true, Some(Evicted)) else r
    {
      var newest := SelectNewest(user, keep);
      kept := newest;
      var _ := Update(Standing(rows, user) - newest, None, Some(Evicted));
    }

    method RevokeByID(hash: Hash, user: UserId) returns (found: bool)
      modifies this`rows
      ensures found <==> hash in Standing(old(rows), user)
      ensures rows == SessionTable.RevokeByID(old(rows), now, hash, user)
      ensures found <==> hash in old(rows) && old(rows)[hash].user == user && !old(rows)[hash].revoked
      ensures !found ==> rows == old(rows)
      ensures found ==>
                var r := old(rows)[hash];
                rows == old(rows)[hash := Row(r.user, r.device, r.expires, r.created, Some(now), true, Some(RevokeById))]
    {
      var n := Update((set x | x in rows && x == hash && rows[x].user == user && !rows[x].revoked), Some(now), Some(RevokeById));
      assert hash !in Standing(old(rows), user) ==> n == 0;
      assert hash in Standing(old(rows), user) ==>
        (set x | x in old(rows) && x == hash && old(rows)[x].user == user && !old(rows)[x].revoked) == {hash};
      found := n > 0;
    }

    method RevokeStaleInitialSessions() returns (count: nat)
      modifies this`rows
      ensures rows == SessionTable.RevokeStaleInitialSessions(old(rows), now)
      ensures count == |StaleInitials(old(rows), now)| && rows.Keys == old(rows).Keys
      ensures forall h :: h in rows ==>
                var r := old(rows)[h];
                rows[h] == if !r.revoked && r.expires > now && r.lastUsed == None && r.created < now - 90 && r.created > now - 600
                           then Row(r.user, r.device, r.expires, r.created, Some(now), true, Some(StaleInitial)) else r
      ensures count == |set h | h in rows && rows[h] != old(rows)[h]|
    {
      ghost var before := rows;
      count := Update(StaleInitials(rows, now), Some(now), Some(StaleInitial));
      assert (set h | h in rows && rows[h] != before[h]) == StaleInitials(before, now);
    }

    method DeleteExpired() returns (count: int)
      modifies this`rows
      ensures rows == SessionTable.DeleteExpired(old(rows), now) && count == |old(rows)| - |rows|
      ensures forall h :: h in rows <==>
                && h in old(rows) && old(rows)[h].expires >= now && !old(rows)[h].revoked
                && (if old(rows)[h].lastUsed.Some? then old(rows)[h].lastUsed.value else old(rows)[h].created) > now - 300
      ensures forall h :: h in rows ==> rows[h] == old(rows)[h]
    {
      var before := |rows|;
      rows := map h | h in rows && !(rows[h].expires < now || rows[h].revoked || LastActive(rows[h]) <= now - ACTIVE_WINDOW) :: rows[h];
      count := before - |rows|;
    }

    /** The session write of ConsumeAndReset, outside the session package. */
    method ResetPassword(user: UserId)
      modifies this`rows
      ensures rows == PasswordReset(old(rows), user) && Standing(rows, user) == {} && rows.Keys == old(rows).Keys
      ensures forall h :: h in rows ==>
                var r := old(rows)[h];
                rows[h] == if r.user == user && !r.revoked
                           then Row(r.user, r.device, r.expires, r.created, r.lastUsed, true, r.reason) else r
    {
      var _ := Update(Standing(rows, user), None, None);
    }
  }
}
