/** The last-admin guard when transactions overlap (user/repository.go): under read-committed
    isolation a guard reads what is committed then, and its update lands later. */
module LastAdminOverlap {
  import opened Names
  import opened LastAdmin

  /** pending holds the calls whose guard has passed and whose update has not landed. */
  datatype Sys = Sys(users: Users, pending: map<nat, LastAdmin.Act>)

  datatype Event = Guards(p: nat, call: LastAdmin.Act) | Commits(p: nat) | RollsBack(p: nat)

  function Step(s: Sys, known: set<Role>, e: Event): Sys {
    match e
    case Guards(p, call) =>
      if p in s.pending || Do(s.users, known, call).1 != Done then s else s.(pending := s.pending[p := call])
    case Commits(p) =>
      if p !in s.pending then s else Sys(Unguarded(s.users, s.pending[p]), s.pending - {p})
    case RollsBack(p) => s.(pending := s.pending - {p})
  }

  function RunAll(s: Sys, known: set<Role>, es: seq<Event>): Sys
    decreases |es|
  {
    if es == [] then s else RunAll(Step(s, known, es[0]), known, es[1..])
  }

  /** Whom the call takes out of the active admins. */
  function Targets(a: LastAdmin.Act): set<UserId> {
    match a
    case Roles(u, names) => if ADMIN in names then {} else {u}
    case Active(u, active) => if active then {} else {u}
    case Bulk(targets, active) => if active then {} else set t | t in targets
  }

  predicate Demotes(a: LastAdmin.Act) {
    match a
    case Roles(_, names) => ADMIN !in names
    case Active(_, active) => !active
    case Bulk(_, active) => !active
  }

  function AllTargets(pending: map<nat, LastAdmin.Act>): set<UserId> {
    set p, u | p in pending && u in Targets(pending[p]) :: u
  }

  /** Some active admin is the target of no update under way. */
  predicate Safe(s: Sys) {
    ActiveAdmins(s.users) - AllTargets(s.pending) != {}
  }

  lemma AdminsAfter(users: Users, a: LastAdmin.Act)
    ensures ActiveAdmins(users) - Targets(a) <= ActiveAdmins(Unguarded(users, a))
    ensures Demotes(a) ==> ActiveAdmins(Unguarded(users, a)) == ActiveAdmins(users) - Targets(a)
  {
    match a
    case Roles(u, names) => AdminsAfterRoles(users, u, names);
    case Active(u, active) => AdminsAfterActive(users, {u}, active);
    case Bulk(targets, active) => AdminsAfterActive(users, (set t | t in targets), active);
  }

  lemma TargetsOf(pending: map<nat, LastAdmin.Act>, p: nat)
    requires p in pending
    ensures AllTargets(pending) == AllTargets(pending - {p}) + Targets(pending[p])
  {
    forall u | u in AllTargets(pending) ensures u in AllTargets(pending - {p}) + Targets(pending[p]) {
      var q :| q in pending && u in Targets(pending[q]);
      if q != p { assert q in pending - {p} && u in Targets((pending - {p})[q]); }
    }
    forall u | u in AllTargets(pending - {p}) ensures u in AllTargets(pending) {
      var q :| q in pending - {p} && u in Targets((pending - {p})[q]);
      assert q in pending && u in Targets(pending[q]);
    }
  }

  /** Landing and rolling back never take away the last safe admin. */
  lemma LandingIsSafe(s: Sys, known: set<Role>, e: Event)
    requires Safe(s) && !e.Guards?
    ensures Safe(Step(s, known, e))
  {
    if e.p in s.pending {
      TargetsOf(s.pending, e.p);
      AdminsAfter(s.users, s.pending[e.p]);
      var u :| u in ActiveAdmins(s.users) - AllTargets(s.pending);
      assert u in ActiveAdmins(Step(s, known, e).users) - AllTargets(Step(s, known, e).pending);
    } else {
      assert s.pending - {e.p} == s.pending;
    }
  }

  predicate NoGuards(es: seq<Event>) {
    forall i :: 0 <= i < |es| ==> !es[i].Guards?
  }

  lemma {:induction false} StaysSafe(s: Sys, known: set<Role>, es: seq<Event>)
    requires Safe(s) && NoGuards(es)
    ensures Safe(RunAll(s, known, es))
    decreases |es|
  {
    if es != [] {
      LandingIsSafe(s, known, es[0]);
      StaysSafe(Step(s, known, es[0]), known, es[1..]);
    }
  }

  function Demoting(s: Sys): set<nat> {
    set p | p in s.pending && Demotes(s.pending[p])
  }

  lemma NoTargets(s: Sys)
    requires Demoting(s) == {}
    ensures AllTargets(s.pending) == {}
  {
    forall p | p in s.pending ensures Targets(s.pending[p]) == {} {
      assert p !in Demoting(s);
    }
  }

  /** All demotions under way land, one after the other. */
  lemma {:induction false} DemotionsLand(s: Sys, known: set<Role>) returns (es: seq<Event>)
    ensures NoGuards(es)
    ensures ActiveAdmins(RunAll(s, known, es).users) == ActiveAdmins(s.users) - AllTargets(s.pending)
    decreases |Demoting(s)|
  {
    if p :| p in Demoting(s) {
      var s' := Step(s, known, Commits(p));
      assert Demoting(s') == Demoting(s) - {p};
      TargetsOf(s.pending, p);
      AdminsAfter(s.users, s.pending[p]);
      var rest := DemotionsLand(s', known);
      es := [Commits(p)] + rest;
      assert es[1..] == rest;
    } else {
      NoTargets(s);
      es := [];
    }
  }

  /** Whatever of the updates under way lands and in whatever order, an active admin is left at
      every moment, if and only if some active admin is the target of none of them. */
  lemma OverlapLeavesAnAdmin(s: Sys, known: set<Role>)
    ensures (forall es :: NoGuards(es) ==> ActiveAdmins(RunAll(s, known, es).users) != {}) <==> Safe(s)
  {
    if Safe(s) {
      forall es | NoGuards(es) ensures ActiveAdmins(RunAll(s, known, es).users) != {} {
        StaysSafe(s, known, es);
      }
    } else {
      var es := DemotionsLand(s, known);
      assert NoGuards(es) && ActiveAdmins(RunAll(s, known, es).users) == {};
    }
  }

  /** No guard passes while a demotion is under way. */
  predicate OneAtATime(s: Sys, known: set<Role>, es: seq<Event>)
    decreases |es|
  {
    es != [] ==> (es[0].Guards? ==> Demoting(s) == {}) && OneAtATime(Step(s, known, es[0]), known, es[1..])
  }

  lemma GuardedIsSafe(s: Sys, known: set<Role>, p: nat, call: LastAdmin.Act)
    requires Safe(s) && Demoting(s) == {}
    ensures Safe(Step(s, known, Guards(p, call)))
  {
    var s' := Step(s, known, Guards(p, call));
    if s' != s {
      NoTargets(s);
      RefusedExactly(s.users, known, call);
      AdminsAfter(s.users, call);
      TargetsOf(s'.pending, p);
      assert s'.pending - {p} == s.pending;
      if call.Roles? { AllKnown(s.users, known, call); }
    }
  }

  lemma AllKnown(users: Users, known: set<Role>, call: LastAdmin.Act)
    requires call.Roles? && Do(users, known, call).1 == Done
    ensures forall n :: n in call.names ==> n in known
  {
  }

  /** So guards that read while no demotion is under way never let the last active admin go. */
  lemma {:induction false} SerialGuardsSuffice(s: Sys, known: set<Role>, es: seq<Event>)
    requires Safe(s) && OneAtATime(s, known, es)
    ensures ActiveAdmins(RunAll(s, known, es).users) != {}
    decreases |es|
  {
    if es != [] {
      if es[0].Guards? {
        GuardedIsSafe(s, known, es[0].p, es[0].call);
      } else {
        LandingIsSafe(s, known, es[0]);
      }
      SerialGuardsSuffice(Step(s, known, es[0]), known, es[1..]);
    }
  }

  /** Two admins, each deactivated by a call whose guard still sees the other one. */
  lemma TwoGuardsPass(known: set<Role>) returns (s: Sys, es: seq<Event>)
    ensures s.pending == map[] && ActiveAdmins(s.users) == {"a", "b"}
    ensures ActiveAdmins(RunAll(s, known, es).users) == {}
  {
    s := Sys(map["a" := User(true, {ADMIN}), "b" := User(true, {ADMIN})], map[]);
    var s1 := Step(s, known, Guards(1, Active("a", false)));
    assert "b" in ActiveAdmins(s.users) - {"a"};
    assert s1.pending == map[1 := Active("a", false)];
    var s2 := Step(s1, known, Guards(2, Active("b", false)));
    assert "a" in ActiveAdmins(s.users) - {"b"};
    assert s2.pending == map[1 := Active("a", false), 2 := Active("b", false)];
    var landing := DemotionsLand(s2, known);
    es := [Guards(1, Active("a", false)), Guards(2, Active("b", false))] + landing;
    assert es[1..][1..] == landing && es[1..][0] == Guards(2, Active("b", false));
    assert RunAll(s, known, es) == RunAll(s1, known, es[1..]) == RunAll(s2, known, landing);
    assert "a" in Targets(s2.pending[1]) && "b" in Targets(s2.pending[2]);
  }
}
