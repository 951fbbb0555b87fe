/** The sessions table and every statement that writes it (session/repository.go,
    passwdreset/repository.go), each as one function of the whole table. */
module SessionTable {
  import opened Names

  /** A token's SHA-256 digest; the unique index makes it a key of the table. */
  type Hash = string
  /** Client address, user agent and device info, compared as one value. */
  type Device = string

  datatype Reason = DeviceReplaced | Rotation | LoggedOut | MassRevoke | RevokeOthers | Evicted | RevokeById | StaleInitial

  datatype Row = Row(
    user: UserId,
    device: Device,
    expires: nat,
    created: nat,
    lastUsed: Option<nat>,
    revoked: bool,
    reason: Option<Reason>)

  type Table = map<Hash, Row>

  const TOKEN_REUSE_GRACE: nat := 5
  const ACTIVE_WINDOW: nat := 300
  const STALE_CUTOFF: nat := 90
  const STALE_HORIZON: nat := 600

  /** COALESCE(last_used_at, created_at). */
  function LastActive(r: Row): nat {
    if r.lastUsed.Some? then r.lastUsed.value else r.created
  }

  /** The user's rows with is_revoked = false, expired ones included. */
  function Standing(t: Table, u: UserId): set<Hash> {
    set h | h in t && t[h].user == u && !t[h].revoked
  }

  predicate Stands(t: Table, h: Hash) {
    h in t && !t[h].revoked
  }

  function Revoked(r: Row, stamp: Option<nat>, reason: Option<Reason>): Row {
    r.(revoked := true,
       lastUsed := if stamp.Some? then stamp else r.lastUsed,
       reason := if reason.Some? then reason else r.reason)
  }

  /** UPDATE sessions SET is_revoked = true ... for the rows in hs. */
  function Revoke(t: Table, hs: set<Hash>, stamp: Option<nat>, reason: Option<Reason>): Table {
    map h | h in t :: if h in hs then Revoked(t[h], stamp, reason) else t[h]
  }

  // ---- INSERT ----

  function Create(t: Table, now: nat, h: Hash, u: UserId, d: Device, expires: nat): Table {
    t[h := Row(u, d, expires, now, None, false, None)]
  }

  // ---- UPDATE ----

  function SameDevice(t: Table, now: nat, u: UserId, d: Device): set<Hash> {
    set h | h in t && t[h].user == u && !t[h].revoked && t[h].expires > now && t[h].device == d
  }

  function RevokeForDevice(t: Table, now: nat, u: UserId, d: Device): Table {
    Revoke(t, SameDevice(t, now, u, d), Some(now), Some(DeviceReplaced))
  }

  function Logout(t: Table, now: nat, h: Hash): Table {
    Revoke(t, (set x | x in t && x == h && !t[x].revoked), Some(now), Some(LoggedOut))
  }

  function RevokeAllForUser(t: Table, u: UserId): Table {
    Revoke(t, Standing(t, u), None, Some(MassRevoke))
  }

  function OtherRows(t: Table, now: nat, u: UserId, current: Hash): set<Hash> {
    set h | h in t && t[h].user == u && !t[h].revoked && t[h].expires > now && h != current
  }

  function RevokeOtherSessions(t: Table, now: nat, u: UserId, current: Hash): Table {
    Revoke(t, OtherRows(t, now, u, current), Some(now), Some(RevokeOthers))
  }

  function RevokeByID(t: Table, now: nat, h: Hash, u: UserId): Table {
    Revoke(t, (set x | x in t && x == h && t[x].user == u && !t[x].revoked), Some(now), Some(RevokeById))
  }

  function StaleInitials(t: Table, now: nat): set<Hash> {
    set h | h in t && !t[h].revoked && t[h].expires > now && t[h].lastUsed.None?
            && t[h].created + STALE_CUTOFF < now && now < t[h].created + STALE_HORIZON
  }

  function RevokeStaleInitialSessions(t: Table, now: nat): Table {
    Revoke(t, StaleInitials(t, now), Some(now), Some(StaleInitial))
  }

  /** The session update of a password reset; it names no reason and keeps last_used_at. */
  function PasswordReset(t: Table, u: UserId): Table {
    Revoke(t, Standing(t, u), None, None)
  }

  /** What SELECT ... ORDER BY COALESCE(last_used_at, created_at) DESC LIMIT keep may return:
      the database breaks ties as it likes. */
  ghost predicate MostRecent(t: Table, u: UserId, keep: nat, kept: set<Hash>) {
    && kept <= Standing(t, u)
    && |kept| == (if keep < |Standing(t, u)| then keep else |Standing(t, u)|)
    && forall h, x :: h in kept && x in Standing(t, u) - kept ==> LastActive(t[x]) <= LastActive(t[h])
  }

  function EvictExcess(t: Table, u: UserId, kept: set<Hash>): Table {
    Revoke(t, Standing(t, u) - kept, None, Some(Evicted))
  }

  // ---- RotateSession and the queries around it ----

  /** The row RotateSession locks, if there is one. */
  predicate Rotatable(t: Table, now: nat, h: Hash) {
    h in t && !t[h].revoked && t[h].expires > now
  }

  /** The checks of RefreshTokens' callback on the locked row. */
  predicate MayRefresh(r: Row, now: nat, userActive: bool, idleLimit: nat) {
    userActive && (idleLimit > 0 ==> now - LastActive(r) <= idleLimit) && r.expires > now
  }

  /** The two writes of the transaction: supersede the row, insert its replacement. */
  function Rotate(t: Table, now: nat, h: Hash, next: Hash, d: Device): Table
    requires h in t
  {
    Revoke(t, {h}, Some(now), Some(Rotation))[next := Row(t[h].user, d, t[h].expires, now, Some(now), false, None)]
  }

  function CheckReuse(t: Table, now: nat, h: Hash): Option<UserId> {
    if h in t && t[h].revoked && t[h].reason == Some(Rotation) && LastActive(t[h]) + TOKEN_REUSE_GRACE <= now
    then Some(t[h].user) else None
  }

  // ---- DELETE ----

  function DeleteExpired(t: Table, now: nat): Table {
    map h | h in t && !(t[h].expires < now || t[h].revoked || LastActive(t[h]) + ACTIVE_WINDOW <= now) :: t[h]
  }

  // ---- Facts about single statements ----

  /** Every limit can be met: the subquery always has an answer. */
  lemma {:induction false} MostRecentExists(t: Table, u: UserId, keep: nat) returns (kept: set<Hash>)
    ensures MostRecent(t, u, keep, kept)
    decreases keep
  {
    if keep == 0 {
      kept := {};
    } else {
      kept := MostRecentExists(t, u, keep - 1);
      if kept != Standing(t, u) {
        var h := Newest(t, Standing(t, u) - kept);
        OneMore(t, u, keep - 1, kept, h);
        kept := kept + {h};
      }
    }
  }

  lemma OneMore(t: Table, u: UserId, keep: nat, kept: set<Hash>, h: Hash)
    requires MostRecent(t, u, keep, kept) && h in Standing(t, u) - kept
    requires forall x :: x in Standing(t, u) - kept ==> LastActive(t[x]) <= LastActive(t[h])
    ensures MostRecent(t, u, keep + 1, kept + {h})
  {
    var all := Standing(t, u);
    assert |all - kept| == |all| - |kept|;
  }

  lemma {:induction false} Newest(t: Table, hs: set<Hash>) returns (h: Hash)
    requires hs != {} && forall x :: x in hs ==> x in t
    ensures h in hs && forall x :: x in hs ==> LastActive(t[x]) <= LastActive(t[h])
    decreases hs
  {
    h :| h in hs;
    if hs != {h} {
      var other := Newest(t, hs - {h});
      if LastActive(t[h]) < LastActive(t[other]) {
        h := other;
      }
    }
  }

  /** Eviction leaves the user min(keep, what there was) standing rows, and every one of them
      was at least as recently active as every row it revoked. */
  lemma EvictionKeepsTheNewest(t: Table, u: UserId, keep: nat, kept: set<Hash>)
    requires MostRecent(t, u, keep, kept)
    ensures var t' := EvictExcess(t, u, kept);
            && |Standing(t', u)| == (if keep < |Standing(t, u)| then keep else |Standing(t, u)|)
            && (forall h, x :: h in Standing(t', u) && x in Standing(t, u) && x !in Standing(t', u) ==>
                  LastActive(t[x]) <= LastActive(t[h]))
            && (forall v :: v != u ==> Standing(t', v) == Standing(t, v))
  {
    assert Standing(EvictExcess(t, u, kept), u) == kept;
    forall v | v != u ensures Standing(EvictExcess(t, u, kept), v) == Standing(t, v) {
    }
  }

  lemma StandingAfterCreate(t: Table, now: nat, h: Hash, v: UserId, d: Device, expires: nat, u: UserId)
    requires h !in t
    ensures Standing(Create(t, now, h, v, d, expires), u) == Standing(t, u) + if u == v then {h} else {}
  {
  }

  /** What a rotation leaves, row by row. */
  lemma RotatedRows(t: Table, now: nat, h: Hash, next: Hash, d: Device)
    requires Stands(t, h) && next !in t
    ensures var t' := Rotate(t, now, h, next, d);
            && t'.Keys == t.Keys + {next}
            && t'[h] == Revoked(t[h], Some(now), Some(Rotation))
            && t'[next] == Row(t[h].user, d, t[h].expires, now, Some(now), false, None)
            && forall x :: x in t && x != h ==> t'[x] == t[x]
  {
  }

  /** Rotation replaces one standing row of its user by another. */
  lemma RotationKeepsTheCount(t: Table, now: nat, h: Hash, next: Hash, d: Device, u: UserId)
    requires Stands(t, h) && next !in t
    ensures |Standing(Rotate(t, now, h, next, d), u)| == |Standing(t, u)|
  {
    RotatedRows(t, now, h, next, d);
    RotatedStanding(t, Rotate(t, now, h, next, d), h, next, u);
  }

  lemma RotatedStanding(t: Table, t': Table, h: Hash, next: Hash, u: UserId)
    requires h in t && !t[h].revoked && next !in t && t'.Keys == t.Keys + {next}
    requires t'[h].revoked && !t'[next].revoked && t'[next].user == t[h].user
    requires forall x :: x in t && x != h ==> t'[x] == t[x]
    ensures |Standing(t', u)| == |Standing(t, u)|
  {
    var mine := t[h].user == u;
    forall x ensures x in Standing(t', u) <==> (x != h && x in Standing(t, u)) || (x == next && mine) {
      assert x in t' <==> x in t || x == next;
    }
    Swapped(Standing(t, u), Standing(t', u), h, next, mine);
  }

  lemma Swapped(before: set<Hash>, after: set<Hash>, h: Hash, next: Hash, mine: bool)
    requires next !in before && (h in before <==> mine)
    requires forall x :: x in after <==> (x != h && x in before) || (x == next && mine)
    ensures |after| == |before|
  {
    if mine {
      assert after == before - {h} + {next};
    } else {
      assert after == before;
    }
  }
}
