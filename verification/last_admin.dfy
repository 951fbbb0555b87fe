/** The last-admin guard, each transaction one step (user/repository.go). */
module LastAdmin {
  import opened Names

  type Role = string

  const ADMIN: Role := "admin"

  datatype User = User(active: bool, roles: set<Role>)

  type Users = map<UserId, User>

  datatype Outcome = Done | UnknownRole(name: Role) | LastActiveAdmin | NotFound | ConstraintViolated

  function ActiveAdmins(users: Users): set<UserId> {
    set u | u in users && users[u].active && ADMIN in users[u].roles
  }

  // ---- What each call would do without its guard ----

  function WithRoles(users: Users, u: UserId, names: seq<Role>): Users {
    if u in users then users[u := users[u].(roles := set n | n in names)] else users
  }

  function WithActive(users: Users, targets: set<UserId>, active: bool): Users {
    map u | u in users :: if u in targets then users[u].(active := active) else users[u]
  }

  // ---- The calls ----

  predicate Distinct(names: seq<Role>) {
    forall i, j :: 0 <= i < j < |names| ==> names[i] != names[j]
  }

  /** The guard of SetRoles and SetActive. */
  predicate Guarded(users: Users, u: UserId) {
    u in ActiveAdmins(users) && ActiveAdmins(users) - {u} == {}
  }

  /** user_roles' keys refuse a repeated role and a role for nobody. */
  function RolesSet(users: Users, known: set<Role>, u: UserId, names: seq<Role>): (Users, Outcome) {
    var unknown := FirstUnknown(known, names);
    if unknown < |names| then (users, UnknownRole(names[unknown]))
    else if ADMIN !in names && Guarded(users, u) then (users, LastActiveAdmin)
    else if !Distinct(names) || (names != [] && u !in users) then (users, ConstraintViolated)
    else (WithRoles(users, u, names), Done)
  }

  function FirstUnknown(known: set<Role>, names: seq<Role>): (i: nat)
    ensures i <= |names| && (i < |names| ==> names[i] !in known)
    ensures forall j :: 0 <= j < i ==> names[j] in known
  {
    if names == [] || names[0] !in known then 0 else 1 + FirstUnknown(known, names[1..])
  }

  function ActiveSet(users: Users, u: UserId, active: bool): (Users, Outcome) {
    if !active && Guarded(users, u) then (users, LastActiveAdmin)
    else if u !in users then (users, NotFound)
    else (WithActive(users, {u}, active), Done)
  }

  function BulkSet(users: Users, targets: seq<UserId>, active: bool): (Users, Outcome) {
    var ts := set t | t in targets;
    if targets == [] then (users, Done)
    else if !active && ActiveAdmins(users) - ts == {} && ActiveAdmins(users) * ts != {} then (users, LastActiveAdmin)
    else (WithActive(users, ts, active), Done)
  }

  datatype Act =
    | Roles(u: UserId, names: seq<Role>)
    | Active(u: UserId, active: bool)
    | Bulk(targets: seq<UserId>, active: bool)

  function Do(users: Users, known: set<Role>, a: Act): (Users, Outcome) {
    match a
    case Roles(u, names) => RolesSet(users, known, u, names)
    case Active(u, active) => ActiveSet(users, u, active)
    case Bulk(targets, active) => BulkSet(users, targets, active)
  }

  function Run(users: Users, known: set<Role>, acts: seq<Act>): Users
    decreases |acts|
  {
    if acts == [] then users else Run(Do(users, known, acts[0]).0, known, acts[1..])
  }

  /** The call with its last-admin guard taken out. */
  function Unguarded(users: Users, a: Act): Users {
    match a
    case Roles(u, names) => WithRoles(users, u, names)
    case Active(u, active) => WithActive(users, {u}, active)
    case Bulk(targets, active) => WithActive(users, (set t | t in targets), active)
  }

  lemma AdminsAfterActive(users: Users, targets: set<UserId>, active: bool)
    ensures !active ==> ActiveAdmins(WithActive(users, targets, false)) == ActiveAdmins(users) - targets
    ensures active ==> ActiveAdmins(users) <= ActiveAdmins(WithActive(users, targets, true))
  {
  }

  lemma AdminsAfterRoles(users: Users, u: UserId, names: seq<Role>)
    ensures ADMIN !in names ==> ActiveAdmins(WithRoles(users, u, names)) == ActiveAdmins(users) - {u}
    ensures ADMIN in names ==> ActiveAdmins(users) <= ActiveAdmins(WithRoles(users, u, names))
  {
  }

  /** The guards refuse a call exactly when it would take the system from some active admin to
      none; an unknown role is reported first. */
  lemma RefusedExactly(users: Users, known: set<Role>, a: Act)
    ensures Do(users, known, a).1 == LastActiveAdmin <==>
              && ActiveAdmins(users) != {} && ActiveAdmins(Unguarded(users, a)) == {}
              && (a.Roles? ==> forall n :: n in a.names ==> n in known)
  {
    match a
    case Roles(u, names) => AdminsAfterRoles(users, u, names);
    case Active(u, active) => AdminsAfterActive(users, {u}, active);
    case Bulk(targets, active) => AdminsAfterActive(users, (set t | t in targets), active);
  }

  /** A refused call changes nothing; an accepted one does what it says. */
  lemma AllOrNothing(users: Users, known: set<Role>, a: Act)
    ensures Do(users, known, a).0 == if Do(users, known, a).1 == Done then Unguarded(users, a) else users
  {
    if a.Bulk? && a.targets == [] {
      assert (set t | t in a.targets) == {};
      assert WithActive(users, {}, a.active) == users;
    }
  }

  /** What a call that is done does to each user v: exactly the targets that exist get the flag, or
      the roles, and keep the other; nobody comes or goes. */
  lemma UserByUser(users: Users, known: set<Role>, a: Act, v: UserId)
    requires Do(users, known, a).1 == Done
    ensures var users' := Do(users, known, a).0;
            && (v in users' <==> v in users)
            && (v in users ==>
                  users'[v] == match a
                    case Roles(u, names) => if v == u then User(users[v].active, set n | n in names) else users[v]
                    case Active(u, active) => if v == u then User(active, users[v].roles) else users[v]
                    case Bulk(targets, active) => if v in targets then User(active, users[v].roles) else users[v])
  {
    AllOrNothing(users, known, a);
  }

  lemma OnlyAdmin(users: Users, u: UserId)
    ensures Guarded(users, u) <==>
              && u in users && users[u].active && "admin" in users[u].roles
              && forall v :: v in users && users[v].active && "admin" in users[v].roles ==> v == u
  {
    if v :| v in users && users[v].active && "admin" in users[v].roles && v != u {
      assert v in ActiveAdmins(users) - {u};
    }
  }

  lemma AllAdmins(users: Users, targets: seq<UserId>)
    ensures var ts := set t | t in targets;
            (ActiveAdmins(users) - ts == {} && ActiveAdmins(users) * ts != {}) <==>
              && (exists v :: v in users && users[v].active && "admin" in users[v].roles)
              && forall v :: v in users && users[v].active && "admin" in users[v].roles ==> v in targets
  {
    var ts := set t | t in targets;
    if v :| v in users && users[v].active && "admin" in users[v].roles {
      assert v in ActiveAdmins(users) - ts || v in ActiveAdmins(users) * ts;
      if w :| w in users && users[w].active && "admin" in users[w].roles && w !in targets {
        assert w in ActiveAdmins(users) - ts;
      }
    }
  }

  /** Which calls are refused, and how, on the users. */
  lemma RolesOutcome(users: Users, known: set<Role>, u: UserId, names: seq<Role>)
    ensures var r := Do(users, known, Roles(u, names)).1;
            var asked := (forall n :: n in names ==> n in known);
            var only := && u in users && users[u].active && "admin" in users[u].roles
                        && forall v :: v in users && users[v].active && "admin" in users[v].roles ==> v == u;
            && (r.UnknownRole? <==> !asked) && r != NotFound
            && (r == LastActiveAdmin <==> asked && "admin" !in names && only)
            && (r == ConstraintViolated <==>
                  && asked && !("admin" !in names && only)
                  && ((exists i, j :: 0 <= i < j < |names| && names[i] == names[j]) || (u !in users && |names| > 0)))
  {
    OnlyAdmin(users, u);
  }

  lemma ActiveOutcome(users: Users, known: set<Role>, u: UserId, active: bool)
    ensures var only := && u in users && users[u].active && "admin" in users[u].roles
                        && forall v :: v in users && users[v].active && "admin" in users[v].roles ==> v == u;
            Do(users, known, Active(u, active)).1 ==
              if !active && only then LastActiveAdmin else if u !in users then NotFound else Done
  {
    OnlyAdmin(users, u);
  }

  lemma BulkOutcome(users: Users, known: set<Role>, targets: seq<UserId>, active: bool)
    ensures Do(users, known, Bulk(targets, active)).1 ==
              if && !active
                 && (exists v :: v in users && users[v].active && "admin" in users[v].roles)
                 && (forall v :: v in users && users[v].active && "admin" in users[v].roles ==> v in targets)
              then LastActiveAdmin else Done
  {
    AllAdmins(users, targets);
  }

  /** Once there is an active admin, there is one after every sequence of calls, accepted or refused. */
  lemma {:induction false} AlwaysAnAdmin(users: Users, known: set<Role>, acts: seq<Act>)
    requires ActiveAdmins(users) != {}
    ensures ActiveAdmins(Run(users, known, acts)) != {}
    decreases |acts|
  {
    if acts != [] {
      var a := acts[0];
      AllOrNothing(users, known, a);
      RefusedExactly(users, known, a);
      AlwaysAnAdmin(Do(users, known, a).0, known, acts[1..]);
    }
  }

  class Repository {
    var users: Users
    const known: set<Role>

    constructor (users: Users, known: set<Role>)
      ensures this.users == users && this.known == known
    {
      this.users, this.known := users, known;
    }

    method GuardLastAdmin(target: UserId) returns (refuse: bool)
      ensures refuse == Guarded(users, target)
      ensures refuse <==>
                && target in users && users[target].active && "admin" in users[target].roles
                && forall u :: u in users && users[u].active && "admin" in users[u].roles ==> u == target
    {
      var targetIsActiveAdmin := target in users && users[target].active && ADMIN in users[target].roles;
      if !targetIsActiveAdmin {
        return false;
      }
      var others := set u | u in users && users[u].active && ADMIN in users[u].roles && u != target;
      assert others == ActiveAdmins(users) - {target};
      OnlyAdmin(users, target);
      refuse := |others| == 0;
    }

    method SetRoles(u: UserId, names: seq<Role>) returns (outcome: Outcome)
      modifies this
      ensures (users, outcome) == RolesSet(old(users), known, u, names)
      // on the users
      ensures outcome != Done ==> users == old(users)
      ensures outcome == Done && u !in old(users) ==> users == old(users) && names == []
      ensures outcome == Done && u in old(users) ==>
                users == old(users)[u := User(old(users)[u].active, set n | n in names)]
      ensures outcome.UnknownRole? ==>
                exists i :: 0 <= i < |names| && names[i] == outcome.name && names[i] !in known && forall j :: 0 <= j < i ==> names[j] in known
      ensures outcome == Done ==>
                && (forall n :: n in names ==> n in known) && (forall i, j :: 0 <= i < j < |names| ==> names[i] != names[j])
                && ("admin" in names || !(u in old(users) && old(users)[u].active && "admin" in old(users)[u].roles)
                    || exists v :: v in old(users) && v != u && old(users)[v].active && "admin" in old(users)[v].roles)
    {
      var newHasAdmin := false;
      for i := 0 to |names|
        invariant newHasAdmin <==> ADMIN in names[..i]
        invariant forall j :: 0 <= j < i ==> names[j] in known
      {
        if names[i] !in known {
          return UnknownRole(names[i]);
        }
        if names[i] == ADMIN {
          newHasAdmin := true;
        }
      }
      assert names[..|names|] == names;
      if !newHasAdmin {
        var refuse := GuardLastAdmin(u);
        if refuse {
          return LastActiveAdmin;
        }
      }
      var roles: set<Role> := {};
      for i := 0 to |names|
        invariant roles == set n | n in names[..i]
        invariant forall j, k :: 0 <= j < k < i ==> names[j] != names[k]
        invariant i > 0 ==> u in users
      {
        if names[i] in roles || u !in users {
          return ConstraintViolated;
        }
        roles := roles + {names[i]};
      }
      if u in users {
        users := users[u := users[u].(roles := roles)];
      }
      outcome := Done;
    }

    method SetActive(u: UserId, active: bool) returns (outcome: Outcome)
      modifies this
      ensures (users, outcome) == ActiveSet(old(users), u, active)
      // on the users
      ensures outcome == Done ==> u in old(users) && users == old(users)[u := User(active, old(users)[u].roles)]
      ensures outcome != Done ==> users == old(users)
      ensures outcome == LastActiveAdmin <==>
                && !active && u in old(users) && old(users)[u].active && "admin" in old(users)[u].roles
                && forall v :: v in old(users) && old(users)[v].active && "admin" in old(users)[v].roles ==> v == u
      ensures outcome == NotFound <==> u !in old(users)
      ensures outcome == Done || outcome == LastActiveAdmin || outcome == NotFound
    {
      if !active {
        var refuse := GuardLastAdmin(u);
        if refuse {
          return LastActiveAdmin;
        }
      }
      if u !in users {
        return NotFound;
      }
      users := users[u := users[u].(active := active)];
      assert users == WithActive(old(users), {u}, active);
      outcome := Done;
    }

    /** The two counting queries of BulkSetActive. */
    method WouldLockOut(targets: seq<UserId>) returns (refuse: bool)
      ensures var ts := set t | t in targets;
              refuse == (ActiveAdmins(users) - ts == {} && ActiveAdmins(users) * ts != {})
      ensures refuse <==>
                && (exists u :: u in users && users[u].active && "admin" in users[u].roles)
                && forall u :: u in users && users[u].active && "admin" in users[u].roles ==> u in targets
    {
      AllAdmins(users, targets);
      ghost var ts := set t | t in targets;
      var remaining := set u | u in users && users[u].active && ADMIN in users[u].roles && u !in targets;
      assert remaining == ActiveAdmins(users) - ts;
      if |remaining| != 0 {
        return false;
      }
      var adminTargets := set u | u in users && users[u].active && ADMIN in users[u].roles && u in targets;
      assert adminTargets == ActiveAdmins(users) * ts;
      refuse := |adminTargets| > 0;
    }

    method BulkSetActive(targets: seq<UserId>, active: bool) returns (outcome: Outcome)
      modifies this
      ensures (users, outcome) == BulkSet(old(users), targets, active)
      // on the users
      ensures outcome == Done ==>
                && users.Keys == old(users).Keys
                && forall v :: v in users ==> users[v] == if v in targets then User(active, old(users)[v].roles) else old(users)[v]
      ensures outcome != Done ==> outcome == LastActiveAdmin && users == old(users)
      ensures outcome == LastActiveAdmin <==>
                && !active
                && (exists v :: v in old(users) && old(users)[v].active && "admin" in old(users)[v].roles)
                && forall v :: v in old(users) && old(users)[v].active && "admin" in old(users)[v].roles ==> v in targets
    {
      if |targets| == 0 {
        return Done;
      }
      if !active {
        var refuse := WouldLockOut(targets);
        if refuse {
          return LastActiveAdmin;
        }
      }
      users := map u | u in users :: if u in targets then users[u].(active := active) else users[u];
      assert users == WithActive(old(users), (set t | t in targets), active);
      outcome := Done;
    }
  }
}
