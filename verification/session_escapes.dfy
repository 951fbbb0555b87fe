/** A run in which a login survives a mass revocation, or a password reset, of its user
    (session/repository.go, passwdreset/repository.go). */
module SessionEscapes {
  import opened Names
  import opened SessionTable
  import opened SessionRuns
  import opened SessionTheorems
  import opened SessionCaps
  import opened SessionCapBound

  /** The transactions open between the snapshot and the landing. */
  function Snapshot(s: Sys, job: Job): Open
    requires job.All? || job.Reset?
  {
    Landing(job, Standing(s.rows, job.u), 0, s.chain.Keys, |s.accepts|, |s.logins|)
  }

  /** The steps: a rotation of h is approved, the statement takes its snapshot, the rotation commits. */
  function Escape(h: Hash, next: Hash, job: Job): seq<Act> {
    [Begins(0, h)] + ([Locks(0)] + ([Approves(0, true, 0)] + ([Scans(1, job)] + [Commits(0, next, "")])))
  }

  lemma ScanStep(s: Sys, h: Hash, job: Job, cap: nat)
    requires s.open == map[0 := Approved(h, 0, 0, 0)] && s.now == 0 && (job.All? || job.Reset?)
    ensures Step(s, Scans(1, job), cap) == s.(open := map[0 := Approved(h, 0, 0, 0), 1 := Snapshot(s, job)])
  {
  }

  lemma RunFive(s: Sys, a: Act, b: Act, c: Act, d: Act, e: Act, cap: nat)
    ensures Run(s, [a] + ([b] + ([c] + ([d] + [e]))), cap) == Step(Step(Step(Step(Step(s, a, cap), b, cap), c, cap), d, cap), e, cap)
  {
    RunOne(s, a, cap);
    RunOne(Step(s, a, cap), b, cap);
    RunOne(Step(Step(s, a, cap), b, cap), c, cap);
    RunOne(Step(Step(Step(s, a, cap), b, cap), c, cap), d, cap);
    RunOne(Step(Step(Step(Step(s, a, cap), b, cap), c, cap), d, cap), e, cap);
    RunJoin(s, [a], [b] + ([c] + ([d] + [e])), cap);
    RunJoin(Step(s, a, cap), [b], [c] + ([d] + [e]), cap);
    RunJoin(Step(Step(s, a, cap), b, cap), [c], [d] + [e], cap);
    RunJoin(Step(Step(Step(s, a, cap), b, cap), c, cap), [d], [e], cap);
  }

  lemma RunOne(s: Sys, a: Act, cap: nat)
    ensures Run(s, [a], cap) == Step(s, a, cap)
  {
    var s1 := Step(s, a, cap);
    assert [a][1..] == [];
    assert Run(s1, [], cap) == s1;
  }

  lemma ScanAndCommit(s: Sys, h: Hash, next: Hash, job: Job, cap: nat)
    requires s.open == map[] && s.now == 0 && h in s.rows && h in s.chain && next !in s.chain && (job.All? || job.Reset?)
    ensures Step(Step(s.(open := s.open[0 := Approved(h, 0, 0, 0)]), Scans(1, job), cap), Commits(0, next, ""), cap)
            == Rotated(s, h, next).(open := map[1 := Snapshot(s, job)])
  {
    var s3 := s.(open := s.open[0 := Approved(h, 0, 0, 0)]);
    assert s3.open == map[0 := Approved(h, 0, 0, 0)];
    ScanStep(s3, h, job, cap);
    var t := s.(open := map[1 := Snapshot(s, job)]);
    assert t.open[0 := Approved(h, 0, 0, 0)] == map[0 := Approved(h, 0, 0, 0), 1 := Snapshot(s, job)];
    CommitStep(t, 0, h, next);
  }

  lemma EscapeSteps(s: Sys, u: UserId, h: Hash, next: Hash, job: Job, cap: nat)
    requires Young(s, u) && s.open == map[] && h in Standing(s.rows, u) && next !in s.chain
    requires job == All(u) || job == Reset(u)
    ensures Run(s, Escape(h, next, job), cap) == Rotated(s, h, next).(open := map[1 := Snapshot(s, job)])
  {
    RotationSteps(s, u, 0, h, next, cap);
    ScanAndCommit(s, h, next, job, cap);
    RunFive(s, Begins(0, h), Locks(0), Approves(0, true, 0), Scans(1, job), Commits(0, next, ""), cap);
  }

  /** One row of u stands. */
  lemma OneRow(u: UserId, cap: nat) returns (acts: seq<Act>, h: Hash)
    requires cap >= 1
    ensures var s := Run(Start, acts, cap);
            Young(s, u) && s.open == map[] && Standing(s.rows, u) == {h}
  {
    StartYoung(u);
    acts := Round(Start, u, cap, 1, 0, 1);
    var rows := Standing(Run(Start, acts, cap).rows, u);
    h :| h in rows;
    assert |rows - {h}| == 0;
  }

  /** Whether it is a mass revocation or a password reset: a rotation that holds the row when the
      snapshot is taken commits before the landing, and after the landing the user still has an
      unrevoked row, of the login made before. */
  lemma MassRevocationMisses(u: UserId, job: Job, cap: nat) returns (acts: seq<Act>, p: nat, h: Hash, next: Hash)
    requires cap >= 1 && (job == All(u) || job == Reset(u))
    ensures var s := Run(Start, acts, cap);
            && AboutToLand(s, p) && s.open[p].job == job && h in s.open[p].targets && h in s.chain
            && Standing(Step(s, Lands(p), cap).rows, u) == {next}
            && LoginStands(Step(s, Lands(p), cap), s.chain[h])
  {
    var before;
    before, h := OneRow(u, cap);
    var s := Run(Start, before, cap);
    var k := LongHash(s.chain.Keys);
    next := seq(k, _ => 'a');
    p := 1;
    acts := before + Escape(h, next, job);
    RunJoin(Start, before, Escape(h, next, job), cap);
    EscapeSteps(s, u, h, next, job, cap);
    RotatedStandingYoung(s, u, h, next);
    Reachable(acts, cap);
    Escaped(s, Run(Start, acts, cap), u, h, next, job, cap);
  }

  lemma Escaped(s: Sys, s1: Sys, u: UserId, h: Hash, next: Hash, job: Job, cap: nat)
    requires Inv(s1) && Standing(s.rows, u) == {h} && h in s.chain && h in s.rows && next !in s.chain
    requires (job == All(u) || job == Reset(u)) && s1 == Rotated(s, h, next).(open := map[1 := Snapshot(s, job)])
    requires Standing(s1.rows, u) == Standing(s.rows, u) - {h} + {next}
    ensures AboutToLand(s1, 1) && Standing(Step(s1, Lands(1), cap).rows, u) == {next}
    ensures LoginStands(Step(s1, Lands(1), cap), s1.chain[h])
  {
    var s2 := Step(s1, Lands(1), cap);
    assert s1.open[1] == Snapshot(s, job) && Spared(job) == {};
    LandsExactlyFrom(s1, 1, cap);
    assert Standing(s2.rows, u) == {h} - {h} + {next} - s.chain.Keys;
    LandFrame(s1, 1);
    StandsAgain(s1, s2, u, h, next);
  }

  lemma StandsAgain(s1: Sys, s2: Sys, u: UserId, h: Hash, next: Hash)
    requires s2.chain == s1.chain && h in s1.chain && next in s1.chain && s1.chain[next] == s1.chain[h]
    requires Standing(s2.rows, u) == {next}
    ensures LoginStands(s2, s1.chain[h])
  {
    assert next in Standing(s2.rows, u);
    assert Stands(s2.rows, next);
  }
}
