/** The bound of SessionCaps.SessionCap is met: logins that evict before any of them inserts
    overshoot the cap, and so does a single login whose eviction rotations slip past. */
module SessionCapBound {
  import opened Names
  import opened SessionTable
  import opened SessionRuns
  import opened SessionTheorems
  import opened SessionCaps

  /** The default lifetime of a session, in seconds. */
  const EIGHT_HOURS: nat := 8 * 3600

  lemma FlightJoin(s: Sys, a: seq<Act>, t: Sys, b: seq<Act>, cap: nat, m: nat, r: nat, u: UserId)
    requires AlwaysInFlight(s, a, cap, m, r, u) && t == Run(s, a, cap) && AlwaysInFlight(t, b, cap, m, r, u)
    ensures AlwaysInFlight(s, a + b, cap, m, r, u) && Run(s, a + b, cap) == Run(t, b, cap)
  {
    Joined(s, a, t, b, cap, x => InFlight(x, u, m, r));
    RunJoin(s, a, b, cap);
  }

  lemma FlightFirst(s: Sys, a: Act, rest: seq<Act>, cap: nat, m: nat, r: nat, u: UserId)
    requires InFlight(s, u, m, r) && AlwaysInFlight(Step(s, a, cap), rest, cap, m, r, u)
    ensures Run(s, [a] + rest, cap) == Run(Step(s, a, cap), rest, cap)
    ensures AlwaysInFlight(s, [a] + rest, cap, m, r, u)
  {
    FirstThen(s, a, Step(s, a, cap), rest, cap, x => InFlight(x, u, m, r));
    RunStep(s, a, rest, cap);
  }

  /** A request number and a digest that are not in use. */
  lemma {:induction false} FreeRequest(ps: set<nat>) returns (n: nat)
    ensures forall p :: p in ps ==> p < n
  {
    n := 0;
    if p :| p in ps {
      var k := FreeRequest(ps - {p});
      n := if p < k then k else p + 1;
      forall q | q in ps ensures q < n {
        assert q == p || q in ps - {p};
      }
    }
  }

  lemma {:induction false} LongHash(hs: set<Hash>) returns (n: nat)
    ensures forall h :: h in hs ==> |h| < n
  {
    n := 0;
    if h :| h in hs {
      var k := LongHash(hs - {h});
      n := if |h| < k then k else |h| + 1;
    }
  }

  lemma {:induction false} SubsetOfSize(hs: set<Hash>, n: nat) returns (part: set<Hash>)
    requires n <= |hs|
    ensures part <= hs && |part| == n
    decreases |hs|
  {
    if n == |hs| {
      part := hs;
    } else {
      var h :| h in hs;
      part := SubsetOfSize(hs - {h}, n);
    }
  }

  // ---- The states these runs go through; the clock stands at 0 ----

  /** Everything of u's was last active at 0 and has not expired. */
  ghost predicate Young(s: Sys, u: UserId) {
    && Inv(s) && s.now == 0
    && forall h :: h in Standing(s.rows, u) ==> h in s.chain && LastActive(s.rows[h]) == 0 && s.rows[h].expires > 0
  }

  /** All that is open are evictions of u with the same snapshot, and logins of u past theirs. */
  ghost predicate Only(open: map<nat, Open>, u: UserId, kept: set<Hash>, gone: set<Hash>, seen: set<Hash>, mark: nat) {
    forall q :: q in open ==>
      || open[q] == Inserting(u)
      || (open[q].Landing? && open[q].job == Excess(u, kept) && open[q].seen == seen && open[q].mark == mark && open[q].targets <= gone)
  }

  lemma FewEnough(s: Sys, u: UserId, m: nat, r: nat, kept: set<Hash>, gone: set<Hash>, seen: set<Hash>, mark: nat)
    requires Only(s.open, u, kept, gone, seen, mark) && Refreshes(s.accepts, mark, u) <= r && |Pending(s, u)| + |Evicting(s, u)| <= m
    ensures InFlight(s, u, m, r)
  {
  }

  // ---- The parts of a round ----

  /** n logins take the snapshot of their eviction. */
  lemma {:induction false} Scan(s: Sys, u: UserId, cap: nat, m: nat, r: nat, kept: set<Hash>, gone: set<Hash>, n: nat) returns (acts: seq<Act>)
    requires gone == Standing(s.rows, u) - kept
    requires cap >= 1 && MostRecent(s.rows, u, cap - 1, kept) && (forall h :: h in s.rows ==> h in s.chain)
    requires Only(s.open, u, kept, gone, s.chain.Keys, |s.accepts|) && |Pending(s, u)| + |Evicting(s, u)| + n <= m
    ensures var s' := Run(s, acts, cap);
            && s' == s.(open := s'.open) && Only(s'.open, u, kept, gone, s.chain.Keys, |s.accepts|)
            && Pending(s', u) == Pending(s, u) && |Evicting(s', u)| == |Evicting(s, u)| + n
    ensures AlwaysInFlight(s, acts, cap, m, r, u)
    decreases n
  {
    FewEnough(s, u, m, r, kept, gone, s.chain.Keys, |s.accepts|);
    if n == 0 {
      acts := [];
    } else {
      var p := FreeRequest(s.open.Keys);
      var a := Scans(p, Excess(u, kept));
      var s1 := ScanOne(s, u, cap, kept, gone, p);
      var rest := Scan(s1, u, cap, m, r, kept, gone, n - 1);
      FlightFirst(s, a, rest, cap, m, r, u);
      acts := [a] + rest;
    }
  }

  lemma ScanOne(s: Sys, u: UserId, cap: nat, kept: set<Hash>, gone: set<Hash>, p: nat) returns (s1: Sys)
    requires gone == Standing(s.rows, u) - kept
    requires cap >= 1 && MostRecent(s.rows, u, cap - 1, kept) && (forall h :: h in s.rows ==> h in s.chain)
    requires Only(s.open, u, kept, gone, s.chain.Keys, |s.accepts|) && p !in s.open
    ensures s1 == Step(s, Scans(p, Excess(u, kept)), cap) == s.(open := s1.open)
    ensures Only(s1.open, u, kept, gone, s.chain.Keys, |s.accepts|)
    ensures Pending(s1, u) == Pending(s, u) && |Evicting(s1, u)| == |Evicting(s, u)| + 1
  {
    s1 := DoScan(s, p, Excess(u, kept), cap);
    var o := Landing(Excess(u, kept), Standing(s.rows, u) - kept, s.now, s.chain.Keys, |s.accepts|, |s.logins|);
    assert s1.open == s.open[p := o];
    OneMoreEvicts(s, s1, u, p, o);
  }

  lemma OneMoreEvicts(s: Sys, s1: Sys, u: UserId, p: nat, o: Open)
    requires p !in s.open && s1.open == s.open[p := o] && o.Landing? && o.job.Excess? && o.job.u == u
    ensures Pending(s1, u) == Pending(s, u) && |Evicting(s1, u)| == |Evicting(s, u)| + 1
  {
    assert Evicting(s1, u) == Evicting(s, u) + {p};
  }

  lemma OneMorePending(s: Sys, s1: Sys, u: UserId, p: nat)
    requires Evicts(s, p, u) && s1.open == s.open[p := Inserting(u)]
    ensures |Pending(s1, u)| == |Pending(s, u)| + 1 && |Evicting(s1, u)| == |Evicting(s, u)| - 1
  {
    assert Pending(s1, u) == Pending(s, u) + {p} && Evicting(s1, u) == Evicting(s, u) - {p};
  }

  /** All evictions under way land; the rows they would revoke do not stand any more. */
  lemma {:induction false} Land(s: Sys, u: UserId, cap: nat, m: nat, r: nat, kept: set<Hash>, gone: set<Hash>, seen: set<Hash>, mark: nat) returns (acts: seq<Act>)
    requires Only(s.open, u, kept, gone, seen, mark) && Refreshes(s.accepts, mark, u) <= r && |Pending(s, u)| + |Evicting(s, u)| <= m
    requires forall h :: h in gone ==> !Stands(s.rows, h)
    ensures var s' := Run(s, acts, cap);
            && s' == s.(open := s'.open) && OnlyInserting(s'.open, u)
            && |Pending(s', u)| == |Pending(s, u)| + |Evicting(s, u)|
    ensures AlwaysInFlight(s, acts, cap, m, r, u)
    decreases |Evicting(s, u)|
  {
    FewEnough(s, u, m, r, kept, gone, seen, mark);
    if p :| p in Evicting(s, u) {
      var s1 := LandOne(s, u, cap, kept, gone, seen, mark, p);
      var rest := Land(s1, u, cap, m, r, kept, gone, seen, mark);
      FlightFirst(s, Lands(p), rest, cap, m, r, u);
      acts := [Lands(p)] + rest;
    } else {
      forall q | q in s.open ensures s.open[q] == Inserting(u) {
        assert q !in Evicting(s, u);
      }
      acts := [];
    }
  }

  lemma LandOne(s: Sys, u: UserId, cap: nat, kept: set<Hash>, gone: set<Hash>, seen: set<Hash>, mark: nat, p: nat) returns (s1: Sys)
    requires Only(s.open, u, kept, gone, seen, mark) && p in Evicting(s, u) && forall h :: h in gone ==> !Stands(s.rows, h)
    ensures s1 == Step(s, Lands(p), cap) == s.(open := s1.open)
    ensures Only(s1.open, u, kept, gone, seen, mark)
    ensures |Pending(s1, u)| == |Pending(s, u)| + 1 && |Evicting(s1, u)| == |Evicting(s, u)| - 1
  {
    s1 := DoLand(s, p);
    assert StillStanding(s.rows, s.open[p].targets) == {};
    assert s1.rows == s.rows;
    assert s1.open == s.open[p := Inserting(u)];
    OneMorePending(s, s1, u, p);
  }

  ghost predicate OnlyInserting(open: map<nat, Open>, u: UserId) {
    forall q :: q in open ==> open[q] == Inserting(u)
  }

  lemma AllInserting(s: Sys, u: UserId)
    requires OnlyInserting(s.open, u)
    ensures Evicting(s, u) == {} && Pending(s, u) == s.open.Keys && forall m: nat, r :: |Pending(s, u)| <= m ==> InFlight(s, u, m, r)
  {
    assert Evicting(s, u) == {};
  }

  /** All logins past their eviction insert. */
  lemma {:induction false} Insert(s: Sys, u: UserId, cap: nat, m: nat, r: nat) returns (acts: seq<Act>)
    requires Young(s, u) && OnlyInserting(s.open, u) && |Pending(s, u)| <= m
    ensures var s' := Run(s, acts, cap);
            Young(s', u) && s'.open == map[] && |Standing(s'.rows, u)| == |Standing(s.rows, u)| + |Pending(s, u)|
    ensures AlwaysInFlight(s, acts, cap, m, r, u)
    decreases |Pending(s, u)|
  {
    AllInserting(s, u);
    if p :| p in Pending(s, u) {
      var k := LongHash(s.chain.Keys);
      var h: Hash := seq(k, _ => 'a');
      var s1 := InsertOne(s, u, p, h, cap);
      var rest := Insert(s1, u, cap, m, r);
      FlightFirst(s, Creates(p, h, "", EIGHT_HOURS), rest, cap, m, r, u);
      acts := [Creates(p, h, "", EIGHT_HOURS)] + rest;
    } else {
      assert s.open == map[];
      acts := [];
    }
  }

  lemma InsertOne(s: Sys, u: UserId, p: nat, h: Hash, cap: nat) returns (s1: Sys)
    requires Young(s, u) && OnlyInserting(s.open, u) && p in s.open && h !in s.chain
    ensures s1 == Step(s, Creates(p, h, "", EIGHT_HOURS), cap) && Young(s1, u) && OnlyInserting(s1.open, u)
    ensures |Standing(s1.rows, u)| == |Standing(s.rows, u)| + 1 && |Pending(s1, u)| == |Pending(s, u)| - 1
  {
    s1 := Step(s, Creates(p, h, "", EIGHT_HOURS), cap);
    StepInv(s, Creates(p, h, "", EIGHT_HOURS), cap);
    assert h !in s.rows && p in Pending(s, u);
    CreateSets(s, p, h, "", EIGHT_HOURS, u);
    InsertedYoung(s, u, p, h);
  }

  lemma InsertedYoung(s: Sys, u: UserId, p: nat, h: Hash)
    requires s.now == 0 && p in s.open && s.open[p] == Inserting(u) && h !in s.chain
    requires forall x :: x in Standing(s.rows, u) ==> x in s.chain && LastActive(s.rows[x]) == 0 && s.rows[x].expires > 0
    ensures var s1 := DoCreate(s, p, h, "", EIGHT_HOURS);
            s1.now == 0 && forall x :: x in Standing(s1.rows, u) ==> x in s1.chain && LastActive(s1.rows[x]) == 0 && s1.rows[x].expires > 0
  {
    var s1 := DoCreate(s, p, h, "", EIGHT_HOURS);
    forall x | x in Standing(s1.rows, u) ensures x in s1.chain && LastActive(s1.rows[x]) == 0 && s1.rows[x].expires > 0 {
      assert x != h ==> x in Standing(s.rows, u);
    }
  }

  // ---- Rotations that slip past ----

  function Rotation(p: nat, h: Hash, next: Hash): seq<Act> {
    [Begins(p, h)] + ([Locks(p)] + ([Approves(p, true, 0)] + [Commits(p, next, "")]))
  }

  /** What the four steps leave. */
  function Rotated(s: Sys, h: Hash, next: Hash): Sys
    requires h in s.rows && h in s.chain
  {
    s.(rows := Rotate(s.rows, 0, h, next, ""),
       chain := s.chain[next := s.chain[h]],
       rotated := s.rotated[h := 0],
       successors := s.successors + {next},
       accepts := s.accepts + [Accept(h, s.rows[h].user, s.chain[h], 0, 0, 0)])
  }

  /** p's rotation holds no place in the user's count. */
  lemma Passing(s: Sys, u: UserId, p: nat, o: Open, m: nat, r: nat)
    requires InFlight(s, u, m, r) && p !in s.open && (o.Waiting? || o.Locked? || o.Approved?)
    ensures InFlight(s.(open := s.open[p := o]), u, m, r)
  {
    var s' := s.(open := s.open[p := o]);
    assert Pending(s', u) == Pending(s, u) && Evicting(s', u) == Evicting(s, u);
    forall w | Evicts(s', w, u) ensures Meanwhile(s', w, u) <= r {
      assert Evicts(s, w, u);
    }
  }

  lemma RotationSteps(s: Sys, u: UserId, p: nat, h: Hash, next: Hash, cap: nat)
    requires Young(s, u) && h in Standing(s.rows, u) && p !in s.open && next !in s.chain && Free(s.open, {h})
    ensures Step(s, Begins(p, h), cap) == s.(open := s.open[p := Waiting(h, 0)])
    ensures Step(s.(open := s.open[p := Waiting(h, 0)]), Locks(p), cap) == s.(open := s.open[p := Locked(h, 0)])
    ensures Step(s.(open := s.open[p := Locked(h, 0)]), Approves(p, true, 0), cap) == s.(open := s.open[p := Approved(h, 0, 0, 0)])
    ensures Step(s.(open := s.open[p := Approved(h, 0, 0, 0)]), Commits(p, next, ""), cap) == Rotated(s, h, next)
  {
    BeginStep(s, p, h);
    LockStep(s, p, h);
    ApproveStep(s, p, h);
    CommitStep(s, p, h, next);
  }

  lemma BeginStep(s: Sys, p: nat, h: Hash)
    requires p !in s.open && h in s.chain && s.now == 0
    ensures DoBegin(s, p, h) == s.(open := s.open[p := Waiting(h, 0)])
  {
  }

  lemma LockStep(s: Sys, p: nat, h: Hash)
    requires p !in s.open && Free(s.open, {h}) && Rotatable(s.rows, 0, h)
    ensures DoLock(s.(open := s.open[p := Waiting(h, 0)]), p) == s.(open := s.open[p := Locked(h, 0)])
  {
    assert s.open[p := Waiting(h, 0)][p := Locked(h, 0)] == s.open[p := Locked(h, 0)];
  }

  lemma ApproveStep(s: Sys, p: nat, h: Hash)
    requires s.now == 0 && h in s.rows && MayRefresh(s.rows[h], 0, true, 0)
    ensures DoApprove(s.(open := s.open[p := Locked(h, 0)]), p, true, 0) == s.(open := s.open[p := Approved(h, 0, 0, 0)])
  {
    assert s.open[p := Locked(h, 0)][p := Approved(h, 0, 0, 0)] == s.open[p := Approved(h, 0, 0, 0)];
  }

  lemma CommitStep(s: Sys, p: nat, h: Hash, next: Hash)
    requires p !in s.open && next !in s.chain && h in s.rows && h in s.chain
    ensures DoCommit(s.(open := s.open[p := Approved(h, 0, 0, 0)]), p, next, "") == Rotated(s, h, next)
  {
    assert s.open[p := Approved(h, 0, 0, 0)] - {p} == s.open;
  }

  lemma RotateOne(s: Sys, u: UserId, p: nat, h: Hash, next: Hash, cap: nat, m: nat, r: nat)
    requires Young(s, u) && h in Standing(s.rows, u) && p !in s.open && next !in s.chain && Free(s.open, {h})
    requires InFlight(s, u, m, r) && InFlight(Rotated(s, h, next), u, m, r)
    ensures Run(s, Rotation(p, h, next), cap) == Rotated(s, h, next)
    ensures AlwaysInFlight(s, Rotation(p, h, next), cap, m, r, u)
  {
    RotationSteps(s, u, p, h, next, cap);
    Passing(s, u, p, Waiting(h, 0), m, r);
    Passing(s, u, p, Locked(h, 0), m, r);
    Passing(s, u, p, Approved(h, 0, 0, 0), m, r);
    var s3 := s.(open := s.open[p := Approved(h, 0, 0, 0)]);
    var s2 := s.(open := s.open[p := Locked(h, 0)]);
    var s1 := s.(open := s.open[p := Waiting(h, 0)]);
    assert Run(Rotated(s, h, next), [], cap) == Rotated(s, h, next);
    FlightFirst(s3, Commits(p, next, ""), [], cap, m, r, u);
    assert [Commits(p, next, "")] + [] == [Commits(p, next, "")];
    FlightFirst(s2, Approves(p, true, 0), [Commits(p, next, "")], cap, m, r, u);
    FlightFirst(s1, Locks(p), [Approves(p, true, 0)] + [Commits(p, next, "")], cap, m, r, u);
    FlightFirst(s, Begins(p, h), [Locks(p)] + ([Approves(p, true, 0)] + [Commits(p, next, "")]), cap, m, r, u);
  }

  lemma RotatedInv(s: Sys, u: UserId, p: nat, h: Hash, next: Hash, cap: nat)
    requires Young(s, u) && h in Standing(s.rows, u) && p !in s.open && next !in s.chain && Free(s.open, {h})
    ensures Inv(Rotated(s, h, next))
  {
    RotationSteps(s, u, p, h, next, cap);
    StepInv(s, Begins(p, h), cap);
    StepInv(s.(open := s.open[p := Waiting(h, 0)]), Locks(p), cap);
    StepInv(s.(open := s.open[p := Locked(h, 0)]), Approves(p, true, 0), cap);
    StepInv(s.(open := s.open[p := Approved(h, 0, 0, 0)]), Commits(p, next, ""), cap);
  }

  lemma RotatedYoung(s: Sys, u: UserId, p: nat, h: Hash, next: Hash, cap: nat)
    requires Young(s, u) && h in Standing(s.rows, u) && p !in s.open && next !in s.chain && Free(s.open, {h})
    ensures Young(Rotated(s, h, next), u)
    ensures Standing(Rotated(s, h, next).rows, u) == Standing(s.rows, u) - {h} + {next}
  {
    RotatedInv(s, u, p, h, next, cap);
    assert next !in s.rows;
    RotatedStandingYoung(s, u, h, next);
  }

  lemma RotatedStandingYoung(s: Sys, u: UserId, h: Hash, next: Hash)
    requires h in Standing(s.rows, u) && next !in s.chain && next !in s.rows && h in s.chain && s.now == 0
    requires forall x :: x in Standing(s.rows, u) ==> x in s.chain && LastActive(s.rows[x]) == 0 && s.rows[x].expires > 0
    ensures var s' := Rotated(s, h, next);
            && Standing(s'.rows, u) == Standing(s.rows, u) - {h} + {next}
            && forall x :: x in Standing(s'.rows, u) ==> x in s'.chain && LastActive(s'.rows[x]) == 0 && s'.rows[x].expires > 0
  {
    RotatedRows(s.rows, 0, h, next, "");
    var rows' := Rotated(s, h, next).rows;
    forall x ensures x in Standing(rows', u) <==> x in Standing(s.rows, u) - {h} + {next} {
    }
  }

  /** The rows in hs are yet to be rotated, within the allowed number, while evictions are under way. */
  ghost predicate Rotating(s: Sys, u: UserId, m: nat, r: nat, kept: set<Hash>, gone: set<Hash>, seen: set<Hash>, mark: nat, hs: set<Hash>) {
    && Young(s, u) && hs <= Standing(s.rows, u) && seen <= s.chain.Keys && mark <= |s.accepts|
    && Only(s.open, u, kept, gone, seen, mark) && |Pending(s, u)| + |Evicting(s, u)| <= m
    && Refreshes(s.accepts, mark, u) + |hs| <= r
  }

  lemma RotateNext(s: Sys, u: UserId, cap: nat, m: nat, r: nat, kept: set<Hash>, gone: set<Hash>, seen: set<Hash>, mark: nat, hs: set<Hash>,
                   h: Hash) returns (acts: seq<Act>, s1: Sys)
    requires Rotating(s, u, m, r, kept, gone, seen, mark, hs) && h in hs
    ensures s1 == Run(s, acts, cap) && AlwaysInFlight(s, acts, cap, m, r, u)
    ensures Rotating(s1, u, m, r, kept, gone, seen, mark, hs - {h}) && s1.open == s.open
    ensures |Standing(s1.rows, u)| == |Standing(s.rows, u)| && s.chain.Keys <= s1.chain.Keys
    ensures forall x :: x in s.chain && Stands(s1.rows, x) ==> Stands(s.rows, x) && x != h
  {
    FewEnough(s, u, m, r, kept, gone, seen, mark);
    var p := FreeRequest(s.open.Keys);
    var k := LongHash(s.chain.Keys);
    var next: Hash := seq(k, _ => 'a');
    s1 := Rotated(s, h, next);
    RotatedYoung(s, u, p, h, next, cap);
    StillRotating(s, s1, u, m, r, kept, gone, seen, mark, hs, h, next);
    FewEnough(s1, u, m, r, kept, gone, seen, mark);
    acts := Rotation(p, h, next);
    RotateOne(s, u, p, h, next, cap, m, r);
    Replaced(s, u, h, next);
  }

  lemma StillRotating(s: Sys, s1: Sys, u: UserId, m: nat, r: nat, kept: set<Hash>, gone: set<Hash>, seen: set<Hash>, mark: nat,
                      hs: set<Hash>, h: Hash, next: Hash)
    requires Rotating(s, u, m, r, kept, gone, seen, mark, hs) && h in hs
    requires Stands(s.rows, h) && h in s.chain && s1 == Rotated(s, h, next) && Young(s1, u)
    requires Standing(s1.rows, u) == Standing(s.rows, u) - {h} + {next} && s.rows[h].user == u
    ensures Rotating(s1, u, m, r, kept, gone, seen, mark, hs - {h})
  {
    assert |hs - {h}| == |hs| - 1;
    RefreshesGrown(s.accepts, s1.accepts[|s.accepts|], mark, u);
    SameFlights(s, s1, u);
  }

  /** The rows in hs are rotated one after the other. */
  lemma {:induction false} RotateAll(s: Sys, u: UserId, cap: nat, m: nat, r: nat, kept: set<Hash>, gone: set<Hash>, seen: set<Hash>, mark: nat, hs: set<Hash>)
    returns (acts: seq<Act>)
    requires Rotating(s, u, m, r, kept, gone, seen, mark, hs)
    ensures var s' := Run(s, acts, cap);
            && Rotating(s', u, m, r, kept, gone, seen, mark, {}) && s'.open == s.open
            && |Standing(s'.rows, u)| == |Standing(s.rows, u)|
            && s.chain.Keys <= s'.chain.Keys && (forall x :: x in s.chain && Stands(s'.rows, x) ==> Stands(s.rows, x) && x !in hs)
    ensures AlwaysInFlight(s, acts, cap, m, r, u)
    decreases |hs|
  {
    if h :| h in hs {
      var first, s1 := RotateNext(s, u, cap, m, r, kept, gone, seen, mark, hs, h);
      var rest := RotateAll(s1, u, cap, m, r, kept, gone, seen, mark, hs - {h});
      FlightJoin(s, first, s1, rest, cap, m, r, u);
      acts := first + rest;
    } else {
      FewEnough(s, u, m, r, kept, gone, seen, mark);
      acts := [];
    }
  }

  lemma SameFlights(s: Sys, s1: Sys, u: UserId)
    requires s1.open == s.open
    ensures Pending(s1, u) == Pending(s, u) && Evicting(s1, u) == Evicting(s, u)
  {
  }

  lemma Replaced(s: Sys, u: UserId, h: Hash, next: Hash)
    requires Stands(s.rows, h) && h in s.chain && next !in s.chain && (forall x :: x in s.rows ==> x in s.chain)
    requires Standing(Rotated(s, h, next).rows, u) == Standing(s.rows, u) - {h} + {next} && h in Standing(s.rows, u)
    ensures |Standing(Rotated(s, h, next).rows, u)| == |Standing(s.rows, u)|
    ensures forall x :: x in s.chain && Stands(Rotated(s, h, next).rows, x) ==> Stands(s.rows, x) && x != h
  {
    RotatedRows(s.rows, 0, h, next, "");
  }

  // ---- Rounds ----

  /** n logins evict together, the rotations of all rows they would revoke slip past, and they all
      insert. */
  lemma Round(s: Sys, u: UserId, cap: nat, m: nat, r: nat, n: nat) returns (acts: seq<Act>)
    requires Young(s, u) && s.open == map[] && cap >= 1 && n <= m && |Standing(s.rows, u)| <= cap - 1 + r
    ensures var s' := Run(s, acts, cap);
            Young(s', u) && s'.open == map[] && |Standing(s'.rows, u)| == |Standing(s.rows, u)| + n
    ensures AlwaysInFlight(s, acts, cap, m, r, u)
  {
    var kept, gone := Choose(s.rows, u, cap);
    assert Pending(s, u) == {} && Evicting(s, u) == {};
    var scans := Scan(s, u, cap, m, r, kept, gone, n);
    var s1 := Run(s, scans, cap);
    RunInv(s, scans, cap);
    var more := SlipPast(s1, u, cap, m, r, kept, gone, n);
    FlightJoin(s, scans, s1, more, cap, m, r, u);
    acts := scans + more;
  }

  /** Of rows equally recent an eviction may keep any. */
  lemma Choose(t: Table, u: UserId, cap: nat) returns (kept: set<Hash>, gone: set<Hash>)
    requires cap >= 1 && forall h :: h in Standing(t, u) ==> LastActive(t[h]) == 0
    ensures MostRecent(t, u, cap - 1, kept) && gone == Standing(t, u) - kept
    ensures |gone| == (if |Standing(t, u)| < cap - 1 then 0 else |Standing(t, u)| - (cap - 1))
  {
    var rows := Standing(t, u);
    kept := SubsetOfSize(rows, if |rows| < cap - 1 then |rows| else cap - 1);
    gone := rows - kept;
    assert |gone| == |rows| - |kept|;
  }

  lemma SlipPast(s: Sys, u: UserId, cap: nat, m: nat, r: nat, kept: set<Hash>, gone: set<Hash>, n: nat) returns (acts: seq<Act>)
    requires Young(s, u) && Only(s.open, u, kept, gone, s.chain.Keys, |s.accepts|)
    requires Pending(s, u) == {} && |Evicting(s, u)| == n <= m && gone <= Standing(s.rows, u) && |gone| <= r
    ensures var s' := Run(s, acts, cap);
            Young(s', u) && s'.open == map[] && |Standing(s'.rows, u)| == |Standing(s.rows, u)| + n
    ensures AlwaysInFlight(s, acts, cap, m, r, u)
  {
    var seen, mark := s.chain.Keys, |s.accepts|;
    var rotations := RotateAll(s, u, cap, m, r, kept, gone, seen, mark, gone);
    var s1 := Run(s, rotations, cap);
    SameFlights(s, s1, u);
    var more := Finish(s1, u, cap, m, r, kept, gone, seen, mark, n);
    FlightJoin(s, rotations, s1, more, cap, m, r, u);
    acts := rotations + more;
  }

  lemma Finish(s: Sys, u: UserId, cap: nat, m: nat, r: nat, kept: set<Hash>, gone: set<Hash>, seen: set<Hash>, mark: nat, n: nat) returns (acts: seq<Act>)
    requires Young(s, u) && Only(s.open, u, kept, gone, seen, mark) && Refreshes(s.accepts, mark, u) <= r
    requires Pending(s, u) == {} && |Evicting(s, u)| == n <= m
    requires forall h :: h in gone ==> !Stands(s.rows, h)
    ensures var s' := Run(s, acts, cap);
            Young(s', u) && s'.open == map[] && |Standing(s'.rows, u)| == |Standing(s.rows, u)| + n
    ensures AlwaysInFlight(s, acts, cap, m, r, u)
  {
    var landings := Land(s, u, cap, m, r, kept, gone, seen, mark);
    var s1 := Run(s, landings, cap);
    RunInv(s, landings, cap);
    var inserts := Insert(s1, u, cap, m, r);
    FlightJoin(s, landings, s1, inserts, cap, m, r, u);
    acts := landings + inserts;
  }

  // ---- The bound is met ----

  /** Logins one at a time, each with all rotations it can miss, up to n rows. */
  lemma {:induction false} Grow(s: Sys, u: UserId, cap: nat, m: nat, r: nat, n: nat) returns (acts: seq<Act>)
    requires Young(s, u) && s.open == map[] && cap >= 1 && m >= 1 && |Standing(s.rows, u)| <= n <= cap - 1 + r
    ensures var s' := Run(s, acts, cap); Young(s', u) && s'.open == map[] && |Standing(s'.rows, u)| == n
    ensures AlwaysInFlight(s, acts, cap, m, r, u)
    decreases n - |Standing(s.rows, u)|
  {
    if |Standing(s.rows, u)| == n {
      assert Pending(s, u) == {} && Evicting(s, u) == {};
      acts := [];
    } else {
      var first := Round(s, u, cap, m, r, 1);
      var s1 := Run(s, first, cap);
      var rest := Grow(s1, u, cap, m, r, n);
      FlightJoin(s, first, s1, rest, cap, m, r, u);
      acts := first + rest;
    }
  }

  lemma StartYoung(u: UserId)
    ensures Young(Start, u) && Standing(Start.rows, u) == {}
  {
    StartInv();
  }

  /** For every cap, m and r some run with at most m logins under way, and at most r of the user's
      rotations committing during any of its evictions, gives the user cap - 1 + m + r rows. */
  lemma CapIsReached(cap: nat, m: nat, r: nat, u: UserId) returns (acts: seq<Act>)
    requires cap >= 1 && m >= 1
    ensures AlwaysInFlight(Start, acts, cap, m, r, u)
    ensures |Standing(Run(Start, acts, cap).rows, u)| == cap - 1 + m + r
  {
    StartYoung(u);
    var first := Grow(Start, u, cap, m, r, cap - 1 + r);
    var s := Run(Start, first, cap);
    var last := Round(s, u, cap, m, r, m);
    FlightJoin(Start, first, s, last, cap, m, r, u);
    acts := first + last;
  }

  /** Logins one at a time do not keep the cap: with one rotation committing during an eviction the
      user ends with one row too many. */
  lemma CapOvershot(cap: nat, u: UserId) returns (acts: seq<Act>)
    requires cap >= 1
    ensures AlwaysInFlight(Start, acts, cap, 1, 1, u) && |Standing(Run(Start, acts, cap).rows, u)| == cap + 1
  {
    acts := CapIsReached(cap, 1, 1, u);
  }
}
