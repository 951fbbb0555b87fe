/** The second factor: validating a TOTP code first and a recovery code then, and setting up,
    enabling and disabling TOTP (mfa/service.go). */
module MfaService {
  import opened Names
  import opened TotpReplay
  import opened RecoveryCodes

  /** The active and the pending secrets of the table. */
  function Secrets(rows: map<UserId, Row>): map<UserId, Secret> {
    map u | u in rows && rows[u].secret != "" :: rows[u].secret
  }

  function Pendings(rows: map<UserId, Row>): map<UserId, Secret> {
    map u | u in rows && rows[u].pending.Some? :: rows[u].pending.value
  }

  /** A user is enabled with a secret, and a secret is not empty. */
  ghost predicate RowsOk(rows: map<UserId, Row>) {
    forall u :: u in rows ==> (rows[u].enabled <==> rows[u].secret != "") && rows[u].pending != Some("")
  }

  lemma PendingSet(rows: map<UserId, Row>, user: UserId, proposal: Secret, row: Row)
    requires RowsOk(rows) && proposal != "" && row.pending == Some(proposal)
    requires user in rows ==> row.secret == rows[user].secret && row.enabled == rows[user].enabled
    requires user !in rows ==> row.secret == "" && !row.enabled
    ensures RowsOk(rows[user := row])
    ensures Secrets(rows[user := row]) == Secrets(rows) && Pendings(rows[user := row]) == Pendings(rows)[user := proposal]
  {
  }

  lemma PendingEnabled(rows: map<UserId, Row>, user: UserId, row: Row)
    requires RowsOk(rows) && user in rows && rows[user].pending.Some?
    requires row.secret == rows[user].pending.value && row.enabled && row.pending.None?
    ensures RowsOk(rows[user := row])
    ensures Secrets(rows[user := row]) == Secrets(rows)[user := rows[user].pending.value]
    ensures Pendings(rows[user := row]) == Pendings(rows) - {user}
  {
  }

  lemma RowGone(rows: map<UserId, Row>, user: UserId)
    requires RowsOk(rows)
    ensures RowsOk(rows - {user})
    ensures Secrets(rows - {user}) == Secrets(rows) - {user} && Pendings(rows - {user}) == Pendings(rows) - {user}
  {
  }

  class Service {
    var now: nat
    var used: map<Marker, nat>
    ghost var issued: set<Secret>
    ghost var log: seq<Accept>
    const repo: Repository

    constructor (repo: Repository)
      requires repo.rows == map[]
      ensures this.repo == repo && used == map[] && now == 0 && log == [] && issued == {} && Valid()
    {
      this.repo, this.used, this.now, this.log, this.issued := repo, map[], 0, [], {};
    }

    ghost predicate Valid()
      reads this, repo
    {
      RowsOk(repo.rows)
    }

    /** What TotpReplay sees of it. */
    ghost function State(): Sys
      reads this, repo
    {
      Sys(now, Secrets(repo.rows), Pendings(repo.rows), used, issued, log)
    }

    ghost predicate Seen(user: UserId, code: string)
      reads this
    {
      Marker(user, code) in used && now < used[Marker(user, code)]
    }

    /** SETNX; None when the replay store cannot be reached. */
    method MarkUsed(user: UserId, code: string, up: bool) returns (r: Option<bool>)
      modifies this`used
      ensures r == if up then Some(old(Seen(user, code))) else None
      ensures used == if up && !old(Seen(user, code)) then old(used)[Marker(user, code) := now + USED_CODE_TTL] else old(used)
      ensures var (m, seen) := (Marker(user, code), Marker(user, code) in old(used) && now < old(used)[Marker(user, code)]);
              && r == (if up then Some(seen) else None)
              && used == if up && !seen then old(used)[m := now + 90] else old(used)
    {
      if !up {
        return None;
      }
      var m := Marker(user, code);
      if m in used && now < used[m] {
        return Some(true);
      }
      used := used[m := now + USED_CODE_TTL];
      r := Some(false);
    }

    /** A code that is valid for the active secret is taken, marked and recorded, or found used;
        None when the replay store cannot tell. */
    method Take(lib: Lib, path: Path, user: UserId, code: string, up: bool) returns (r: Option<bool>)
      requires user in repo.rows && repo.rows[user].secret != "" && TotpReplay.Valid(lib, repo.rows[user].secret, code, now)
      modifies this`used, this`log
      ensures r == if up then Some(Accepts(lib, old(State()), user, code)) else None
      ensures r == if up then Some(!old(Seen(user, code))) else None
      ensures State() == if r == Some(true) then Mark(old(State()), path, user, code) else old(State())
      ensures var (m, seen) := (Marker(user, code), Marker(user, code) in old(used) && now < old(used)[Marker(user, code)]);
              && r == (if up then Some(!seen) else None)
              && used == (if up && !seen then old(used)[m := now + 90] else old(used))
              && log == if up && !seen then old(log) + [Accept(path, user, repo.rows[user].secret, code, now)] else old(log)
    {
      var seen := MarkUsed(user, code, up);
      if seen.None? {
        return None;
      }
      if !seen.value {
        log := log + [Accept(path, user, repo.rows[user].secret, code, now)];
      }
      r := Some(!seen.value);
    }

    /** With the replay store up this is a step of TotpReplay. A TOTP code that is valid now is
        decided by the replay store alone and never falls through to the recovery codes; without
        the store it passes unless failClosed. */
    method Validate(lib: Lib, cmp: Compare, user: UserId, raw: string, up: bool, failClosed: bool) returns (ok: bool)
      requires Valid()
      modifies this`used, this`log, repo
      ensures Valid() && (up ==> State() == Step(lib, old(State()), Validates(user, raw)))
      ensures var (rows, code) := (old(repo.rows), lib.norm(raw));
              var totp := user in rows && rows[user].secret != "" && TotpReplay.Valid(lib, rows[user].secret, code, now);
              && (totp ==>
                   && ok == (if up then !old(Seen(user, code)) else !failClosed)
                   && repo.rows == rows
                   && (ok && up ==> Seen(user, code)))
              && (!totp ==>
                   && used == old(used)
                   && (ok <==> user in rows && Consume(cmp, rows[user].codes, code).1)
                   && repo.rows == if ok then rows[user := rows[user].(codes := Consume(cmp, rows[user].codes, code).0)] else rows)
      // on the steps: the code of this one or of one next to it, and no live marker for its spelling
      ensures var (rows, code, m) := (old(repo.rows), lib.norm(raw), Marker(user, lib.norm(raw)));
              var seen := m in old(used) && now < old(used)[m];
              if user in rows && rows[user].secret != ""
                 && lib.trim(code) in {lib.hotp(rows[user].secret, now / 30 - 1), lib.hotp(rows[user].secret, now / 30),
                                       lib.hotp(rows[user].secret, now / 30 + 1)}
              then
                && ok == (if up then !seen else !failClosed)
                && repo.rows == rows
                && used == (if up && !seen then old(used)[m := now + 90] else old(used))
                && log == if up && !seen then old(log) + [Accept(Validation, user, rows[user].secret, code, now)] else old(log)
              else
                && (ok <==> user in rows && exists h :: h in rows[user].codes && cmp(h, code))
                && used == old(used) && log == old(log)
                && (!ok ==> repo.rows == rows)
    {
      var code := lib.norm(raw);
      if user in repo.rows && repo.rows[user].secret != "" && TotpReplay.Valid(lib, repo.rows[user].secret, code, now) {
        var taken := Take(lib, Validation, user, code, up);
        if taken.None? {
          return !failClosed;
        }
        return taken.value;
      }
      ok := Recover(cmp, user, code);
    }

    method Recover(cmp: Compare, user: UserId, code: string) returns (ok: bool)
      requires Valid()
      modifies repo
      ensures Valid() && State() == old(State())
      ensures ok <==> user in old(repo.rows) && Consume(cmp, old(repo.rows)[user].codes, code).1
      ensures repo.rows == if ok then old(repo.rows)[user := old(repo.rows)[user].(codes := Consume(cmp, old(repo.rows)[user].codes, code).0)]
                           else old(repo.rows)
      ensures ok <==> user in old(repo.rows) && exists h :: h in old(repo.rows)[user].codes && cmp(h, code)
    {
      ghost var rows := repo.rows;
      ok := repo.ConsumeRecoveryCode(user, cmp, code);
      if user in rows {
        ConsumeRemovesOne(cmp, rows[user].codes, code);
      }
      assert Secrets(repo.rows) == Secrets(rows) && Pendings(repo.rows) == Pendings(rows);
    }

    /** A new pending secret; an enabled user has to present a code, and the replay store must be up
        to take it. */
    method Setup(lib: Lib, user: UserId, code: string, proposal: Secret, codes: seq<Digest>, up: bool) returns (ok: bool)
      requires Valid() && proposal !in issued && proposal != ""
      modifies this`used, this`log, this`issued, repo
      ensures Valid() && (up ==> State() == Step(lib, old(State()), Setups(user, code, proposal)))
      ensures user in old(repo.rows) && old(repo.rows)[user].enabled && !up ==> !ok && State() == old(State())
      ensures ok ==> user in repo.rows && repo.rows[user].pending == Some(proposal) && repo.rows[user].pendingCodes == codes
      ensures !ok ==> repo.rows == old(repo.rows)
      // on the steps: an enabled user needs a current code that no live marker names
      ensures ok <==>
                (user in old(repo.rows) && old(repo.rows)[user].enabled ==>
                   && code != "" && up && !(Marker(user, code) in old(used) && now < old(used)[Marker(user, code)])
                   && var k := old(repo.rows)[user].secret;
                      lib.trim(code) in {lib.hotp(k, now / 30 - 1), lib.hotp(k, now / 30), lib.hotp(k, now / 30 + 1)})
      ensures used == if ok && user in old(repo.rows) && old(repo.rows)[user].enabled
                      then old(used)[Marker(user, code) := now + 90] else old(used)
      ensures ok ==> repo.rows == old(repo.rows)[user := repo.rows[user]]
                     && (if user in old(repo.rows)
                         then repo.rows[user] == old(repo.rows)[user].(pending := Some(proposal), pendingCodes := codes)
                         else repo.rows[user].secret == "" && !repo.rows[user].enabled && repo.rows[user].codes == [])
    {
      if user in repo.rows && repo.rows[user].enabled {
        if code == "" || !TotpReplay.Valid(lib, repo.rows[user].secret, code, now) {
          return false;
        }
        var taken := Take(lib, TotpReplay.Setup, user, code, up);
        if taken != Some(true) {
          return false;
        }
      }
      SetPending(user, proposal, codes);
      ok := true;
    }

    method SetPending(user: UserId, proposal: Secret, codes: seq<Digest>)
      requires Valid() && proposal != ""
      modifies this`issued, repo
      ensures Valid() && State() == Propose(old(State()), user, proposal)
      ensures user in repo.rows && repo.rows[user].pending == Some(proposal) && repo.rows[user].pendingCodes == codes
      ensures used == old(used) && log == old(log) && repo.rows == old(repo.rows)[user := repo.rows[user]]
      ensures if user in old(repo.rows) then repo.rows[user] == old(repo.rows)[user].(pending := Some(proposal), pendingCodes := codes)
              else repo.rows[user].secret == "" && !repo.rows[user].enabled && repo.rows[user].codes == []
    {
      ghost var rows := repo.rows;
      repo.UpsertPending(user, proposal, codes);
      issued := issued + {proposal};
      PendingSet(rows, user, proposal, repo.rows[user]);
    }

    /** The pending secret is enabled by a code of its own, which is not marked. */
    method VerifyAndEnable(lib: Lib, user: UserId, code: string) returns (ok: bool)
      requires Valid()
      modifies this`log, repo
      ensures Valid() && State() == Step(lib, old(State()), Enables(user, code))
      ensures ok <==> user in old(repo.rows) && old(repo.rows)[user].pending.Some?
                      && TotpReplay.Valid(lib, old(repo.rows)[user].pending.value, code, now)
      ensures ok <==>
                && user in old(repo.rows) && old(repo.rows)[user].pending.Some?
                && var k := old(repo.rows)[user].pending.value;
                   lib.trim(code) in {lib.hotp(k, now / 30 - 1), lib.hotp(k, now / 30), lib.hotp(k, now / 30 + 1)}
      ensures used == old(used) && (!ok ==> repo.rows == old(repo.rows))
      ensures ok ==> repo.rows == old(repo.rows)[user := Row(old(repo.rows)[user].pending.value, None, true, old(repo.rows)[user].pendingCodes, [])]
    {
      if user !in repo.rows || repo.rows[user].pending.None? || !TotpReplay.Valid(lib, repo.rows[user].pending.value, code, now) {
        return false;
      }
      ghost var rows := repo.rows;
      log := log + [Accept(Enabling, user, repo.rows[user].pending.value, code, now)];
      ok := repo.Enable(user);
      PendingEnabled(rows, user, repo.rows[user]);
    }

    /** Everything of the user's goes, for a valid code that was not used, with the replay store up. */
    method Disable(lib: Lib, user: UserId, code: string, up: bool) returns (ok: bool)
      requires Valid()
      modifies this`used, this`log, repo
      ensures Valid() && (up ==> State() == Step(lib, old(State()), Disables(user, code)))
      ensures !up ==> !ok && State() == old(State())
      ensures repo.rows == if ok then old(repo.rows) - {user} else old(repo.rows)
      ensures ok <==>
                && up && user in old(repo.rows) && old(repo.rows)[user].secret != ""
                && !(Marker(user, code) in old(used) && now < old(used)[Marker(user, code)])
                && var k := old(repo.rows)[user].secret;
                   lib.trim(code) in {lib.hotp(k, now / 30 - 1), lib.hotp(k, now / 30), lib.hotp(k, now / 30 + 1)}
      ensures used == if ok then old(used)[Marker(user, code) := now + 90] else old(used)
    {
      if user !in repo.rows || repo.rows[user].secret == "" || !TotpReplay.Valid(lib, repo.rows[user].secret, code, now) {
        return false;
      }
      var taken := Take(lib, Disabling, user, code, up);
      if taken != Some(true) {
        return false;
      }
      RowGone(repo.rows, user);
      repo.Delete(user);
      ok := true;
    }
  }
}
