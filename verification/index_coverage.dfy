/** When overlapping requests leave the indexes complete (oidc/refreshtoken.go): the condition
    on a run, and two runs that break it. */
module IndexCoverage {
  import opened Names
  import opened AuthCodes
  import opened RefreshKeys
  import opened GrantChains
  import opened GrantTheorems
  import opened GrantOperations
  import opened GrantOverlaps
  import opened OverlapTheorems
  import RefreshStore

  /** Some request has still to renew the expiry of o's index. */
  predicate Renews(procs: map<nat, Proc>, p: nat, o: Owner) {
    ExpireIndex(o) in Todo(procs, p)
  }

  /** What a run must not do: give up in the middle of a save, delete an index that has come to
      list a live token since it was read, or let an index expire that a save is about to renew. */
  ghost predicate Disturbs(m: Machine, a: Act) {
    match a
    case GiveUp(p) => exists c :: c in Todo(m.procs, p) && (c.AddIndex? || c.ExpireIndex?)
    case Send(p) =>
      && Todo(m.procs, p) != [] && Todo(m.procs, p)[0].DelKeys?
      && exists o, t :: o in Todo(m.procs, p)[0].os && t in Members(m.store.index, o)
                        && t in m.store.live && t !in Todo(m.procs, p)[0].ts
    case Pass(d) =>
      exists p, o :: Renews(m.procs, p, o) && o in m.store.index && m.store.index[o].exp.Some?
                     && m.store.index[o].exp.value <= m.store.now + d
    case _ => false
  }

  ghost predicate Undisturbed(m: Machine, acts: seq<Act>)
    decreases |acts|
  {
    acts != [] ==> !Disturbs(m, acts[0]) && Undisturbed(Step(m, acts[0]), acts[1..])
  }

  /** t is in o's index, which does not expire before it, or a save will still see to that. */
  ghost predicate Kept(m: Machine, o: Owner, t: Token)
    requires t in m.store.live
  {
    || Covers(m.store.index, o, t, m.store.live[t].exp)
    || (exists p :: Adds(m.procs, p, o, t))
    || (t in Members(m.store.index, o) && exists p :: Renews(m.procs, p, o))
  }

  predicate Covers(index: map<Owner, Index>, o: Owner, t: Token, exp: nat) {
    RefreshStore.Covers(index, o, t, exp)
  }

  /** Every SADD is followed by the EXPIRE of the same index. */
  predicate Followed(todo: seq<Cmd>) {
    forall i :: 0 <= i < |todo| && todo[i].AddIndex? ==> i + 1 < |todo| && todo[i + 1] == ExpireIndex(todo[i].o)
  }

  ghost predicate TimesOk(m: Machine) {
    && (forall t :: t in m.store.live ==> m.store.live[t].exp <= m.store.now + TTL)
    && (forall p :: Followed(Todo(m.procs, p)))
  }

  ghost predicate AllKept(m: Machine) {
    forall t, o :: t in m.store.live && Owns(o, m.store.live[t].sess) ==> Kept(m, o, t)
  }

  // ---- Times ----

  lemma SendTimes(m: Machine, p: nat)
    requires TimesOk(m)
    ensures TimesOk(DoSend(m, p))
  {
    var m' := DoSend(m, p);
    if CanSend(m, p) && m.procs[p].todo != [] {
      var todo := Todo(m.procs, p);
      forall q ensures Followed(Todo(m'.procs, q)) {
        if q == p {
          assert Todo(m'.procs, p) == todo[1..];
          forall i | 0 <= i < |todo[1..]| && todo[1..][i].AddIndex?
            ensures i + 1 < |todo[1..]| && todo[1..][i + 1] == ExpireIndex(todo[1..][i].o)
          {
            assert todo[1..][i] == todo[i + 1];
          }
        } else {
          assert Todo(m'.procs, q) == Todo(m.procs, q);
        }
      }
    }
  }

  lemma AddsNothing(todo: seq<Cmd>)
    requires forall c :: c in todo ==> !c.AddIndex?
    ensures Followed(todo)
  {
    forall i | 0 <= i < |todo| ensures !todo[i].AddIndex? {
      assert todo[i] in todo;
    }
  }

  lemma SaveFollowed(t: Token, sess: Session)
    ensures Followed(SaveIndex(t, sess))
  {
    var todo := SaveIndex(t, sess);
    assert todo[1] == ExpireIndex(todo[0].o) && todo[3] == ExpireIndex(todo[2].o);
  }

  lemma ListsFollowed(m: Machine, m': Machine, p: nat)
    requires Followed(Todo(m.procs, p))
    requires Todo(m'.procs, p) == Todo(m.procs, p) || forall c :: c in Todo(m'.procs, p) ==> !c.AddIndex?
    ensures Followed(Todo(m'.procs, p))
  {
    if Todo(m'.procs, p) != Todo(m.procs, p) {
      AddsNothing(Todo(m'.procs, p));
    }
  }

  lemma ReadLists(m: Machine, a: Act, p: nat)
    requires a.Consent? || a.TakeCode? || a.ReadTombstone? || a.Peek? || a.GiveUp? || a.Pass?
    ensures Todo(Step(m, a).procs, p) == Todo(m.procs, p) || Todo(Step(m, a).procs, p) == []
  {
  }

  lemma TakeLists(m: Machine, a: Act, p: nat)
    requires a.TakeToken? || a.TakePeeked?
    ensures Todo(Step(m, a).procs, p) == Todo(m.procs, p) || forall c :: c in Todo(Step(m, a).procs, p) ==> !c.AddIndex?
  {
  }

  lemma SweepLists(m: Machine, a: Act, p: nat)
    requires a.ListFamily? || a.ListUser?
    ensures Todo(Step(m, a).procs, p) == Todo(m.procs, p) || forall c :: c in Todo(Step(m, a).procs, p) ==> !c.AddIndex?
  {
  }

  lemma SaveLists(m: Machine, a: Act, p: nat)
    requires Followed(Todo(m.procs, p)) && (a.FirstToken? || a.NextToken?)
    ensures Followed(Todo(Step(m, a).procs, p))
  {
    if a.p == p && HasCode(m.procs, p) && a.FirstToken? {
      var g := m.procs[p].grant;
      SaveFollowed(a.t, Session(g.user, g.client, g.scopes, g.authTime, a.f));
    } else if a.p == p && HasToken(m.procs, p) {
      SaveFollowed(a.t, m.procs[p].sess);
    }
  }

  /** New lists of commands are whole saves, or add nothing. */
  lemma NewLists(m: Machine, a: Act, p: nat)
    requires Followed(Todo(m.procs, p)) && !a.Send?
    ensures Followed(Todo(Step(m, a).procs, p))
  {
    if a.FirstToken? || a.NextToken? {
      SaveLists(m, a, p);
    } else {
      if a.TakeToken? || a.TakePeeked? {
        TakeLists(m, a, p);
      } else if a.ListFamily? || a.ListUser? {
        SweepLists(m, a, p);
      } else {
        ReadLists(m, a, p);
      }
      ListsFollowed(m, Step(m, a), p);
    }
  }

  lemma LiveTimes(m: Machine, a: Act, t: Token)
    requires TimesOk(m) && t in Step(m, a).store.live
    ensures Step(m, a).store.live[t].exp <= Step(m, a).store.now + TTL
  {
    if Quiet(a) {
      QuietIsCalmer(m, a);
      LaterClock(m, a);
    }
  }

  lemma LaterClock(m: Machine, a: Act)
    ensures m.store.now <= Step(m, a).store.now
  {
  }

  lemma StepTimes(m: Machine, a: Act)
    requires TimesOk(m)
    ensures TimesOk(Step(m, a))
  {
    if a.Send? {
      SendTimes(m, a.p);
    } else {
      forall p ensures Followed(Todo(Step(m, a).procs, p)) {
        NewLists(m, a, p);
      }
      forall t | t in Step(m, a).store.live ensures Step(m, a).store.live[t].exp <= Step(m, a).store.now + TTL {
        LiveTimes(m, a, t);
      }
    }
  }

  // ---- Coverage ----

  lemma SendKeeps(m: Machine, p: nat, o: Owner, t: Token)
    requires Hist(m) && TimesOk(m) && CanSend(m, p) && m.procs[p].todo != [] && !Disturbs(m, Send(p))
    requires t in m.store.live && Kept(m, o, t) && t in DoSend(m, p).store.live
    ensures Kept(DoSend(m, p), o, t)
  {
    var m', todo := DoSend(m, p), Todo(m.procs, p);
    var c := todo[0];
    assert Orderly(todo, m.store.live.Keys) && Followed(todo);
    TailHist(m, p);
    assert m'.store.live[t] == m.store.live[t];
    forall q, d | d in Todo(m.procs, q) && d != c ensures d in Todo(m'.procs, q) {
      if q == p { assert todo == [c] + todo[1..]; }
    }
    forall q | Adds(m.procs, q, o, t) && c != AddIndex(o, t) ensures Adds(m'.procs, q, o, t) {
    }
    forall q | Renews(m.procs, q, o) && c != ExpireIndex(o) ensures Renews(m'.procs, q, o) {
    }
    if c == AddIndex(o, t) {
      assert todo[1..][0] == ExpireIndex(o);
      assert Renews(m'.procs, p, o) && t in Members(m'.store.index, o);
    } else if c.DelKeys? && t in Members(m.store.index, o) {
      assert o !in c.os;
    } else if !(exists q :: Adds(m.procs, q, o, t)) {
      ExecKeeps(m.store, c, o, t, m.store.live[t].exp);
    }
  }

  lemma ExecKeeps(s: Store, c: Cmd, o: Owner, t: Token, exp: nat)
    requires !c.DelKeys? && (c.RemIndex? ==> t !in c.ts) && t in Members(s.index, o) && exp <= s.now + TTL
    ensures t in Members(Exec(s, c).index, o)
    ensures Covers(s.index, o, t, exp) || c == ExpireIndex(o) ==> Covers(Exec(s, c).index, o, t, exp)
  {
  }

  lemma PassKeeps(m: Machine, d: nat, o: Owner, t: Token)
    requires !Disturbs(m, Pass(d)) && t in m.store.live && Kept(m, o, t) && t in DoPass(m, d).store.live
    ensures Kept(DoPass(m, d), o, t)
  {
    var m' := DoPass(m, d);
    if p :| Adds(m.procs, p, o, t) {
      assert Adds(m'.procs, p, o, t);
    }
    if p :| Renews(m.procs, p, o) {
      assert Renews(m'.procs, p, o);
    }
  }

  lemma GiveUpKeeps(m: Machine, p: nat, o: Owner, t: Token)
    requires !Disturbs(m, GiveUp(p)) && t in m.store.live && Kept(m, o, t)
    ensures Kept(DoGiveUp(m, p), o, t)
  {
    var m' := DoGiveUp(m, p);
    if q :| Adds(m.procs, q, o, t) {
      assert q != p && Adds(m'.procs, q, o, t);
    }
    if q :| Renews(m.procs, q, o) {
      assert q != p && Renews(m'.procs, q, o);
    }
  }

  lemma OtherKeeps(m: Machine, a: Act, o: Owner, t: Token)
    requires !a.Send? && !a.GiveUp? && !a.Pass? && t in m.store.live && Kept(m, o, t)
    requires t in Step(m, a).store.live && Step(m, a).store.live[t] == m.store.live[t]
    ensures Kept(Step(m, a), o, t)
  {
    OtherSteps(m, a);
    if q :| Adds(m.procs, q, o, t) {
      assert Adds(Step(m, a).procs, q, o, t);
    }
    if q :| Renews(m.procs, q, o) {
      assert Renews(Step(m, a).procs, q, o);
    }
  }

  lemma NewKept(m: Machine, a: Act, o: Owner, t: Token)
    requires forall x :: Members(m.store.index, x) <= m.mintedTokens
    requires t !in m.mintedTokens && t in Step(m, a).mintedTokens
    requires t in Step(m, a).store.live && Owns(o, Step(m, a).store.live[t].sess)
    ensures Kept(Step(m, a), o, t)
  {
    NewPromise(m, a, t);
    assert Promised(Step(m, a), o, t);
    OtherSteps(m, a);
  }

  lemma OldKept(m: Machine, a: Act, o: Owner, t: Token)
    requires Hist(m) && TimesOk(m) && t in m.store.live && Kept(m, o, t) && !Disturbs(m, a)
    requires t in Step(m, a).store.live && Step(m, a).store.live[t] == m.store.live[t]
    ensures Kept(Step(m, a), o, t)
  {
    match a
    case Send(p) =>
      if CanSend(m, p) && m.procs[p].todo != [] { SendKeeps(m, p, o, t); }
    case GiveUp(p) => GiveUpKeeps(m, p, o, t);
    case Pass(d) => PassKeeps(m, d, o, t);
    case _ => OtherKeeps(m, a, o, t);
  }

  lemma StepKeeps(m: Machine, a: Act)
    requires Inv(m) && Hist(m) && TimesOk(m) && AllKept(m) && !Disturbs(m, a)
    ensures AllKept(Step(m, a))
  {
    var m' := Step(m, a);
    StepInv(m, a);
    forall x ensures Members(m.store.index, x) <= m.mintedTokens {
      ListedMinted(m, x);
    }
    forall t, o | t in m'.store.live && Owns(o, m'.store.live[t].sess) ensures Kept(m', o, t) {
      if t in m.mintedTokens {
        OldTokens(m, a, t);
        OldKept(m, a, o, t);
      } else {
        LiveMinted(m', t);
        NewKept(m, a, o, t);
      }
    }
  }

  lemma {:induction false} KeptRun(m: Machine, acts: seq<Act>)
    requires Inv(m) && Hist(m) && TimesOk(m) && AllKept(m) && Undisturbed(m, acts)
    ensures AllKept(Run(m, acts))
    decreases |acts|
  {
    if acts != [] {
      StepInv(m, acts[0]);
      StepHist(m, acts[0]);
      StepTimes(m, acts[0]);
      StepKeeps(m, acts[0]);
      KeptRun(Step(m, acts[0]), acts[1..]);
    }
  }

  /** In every undisturbed run of single commands each live token is in its user's and its
      family's index, and neither expires before it, or a save has still to add it or to renew
      that index. */
  lemma IndexesComplete(acts: seq<Act>, o: Owner, t: Token)
    requires Undisturbed(Start, acts)
    requires t in Run(Start, acts).store.live && Owns(o, Run(Start, acts).store.live[t].sess)
    ensures Kept(Run(Start, acts), o, t)
  {
    StartHist();
    assert TimesOk(Start) && AllKept(Start);
    KeptRun(Start, acts);
  }

  /** So a mass revocation after an undisturbed run, while no save of the user is under way,
      leaves the user no live token. */
  lemma RevocationComplete(acts: seq<Act>, p: nat, u: UserId, t: Token)
    requires Undisturbed(Start, acts) && p !in Run(Start, acts).procs
    requires forall q, x :: !Adds(Run(Start, acts).procs, q, User(u), x)
    ensures var m := Run(Start, acts);
            var m' := Run(m, Commands(m, RevokesUser(p, u)));
            t in m'.store.live ==> m'.store.live[t].sess.user != u
  {
    RevokeUserLeaves(acts, p, u, t);
    var m := Run(Start, acts);
    RevokeUserEffect(m, p, u);
    if t in m.store.live && m.store.live[t].sess.user == u {
      IndexesComplete(acts, User(u), t);
    }
  }

  // ---- Two runs in which an index misses a live token ----

  const Consented := Consent("c", "u", "x", ["offline_access"], {"offline_access"})
  const First := Session("u", "x", ["offline_access"], 0, "f")

  /** One request has just sent the SET of the first token of family "f". */
  lemma FirstSet() returns (acts: seq<Act>)
    ensures var m := Run(Start, acts);
            && m.procs == map[1 := Sending(SaveIndex("t0", First))]
            && m.store == Empty.(live := map["t0" := Entry(First, TTL)])
            && m.mintedTokens == {"t0"} && m.origins.Keys == {"f"}
  {
    var m1 := Step(Start, Consented);
    assert m1.codes == map["c" := CodeEntry(Grant("u", "x", ["offline_access"], 0, {"offline_access"}), CODE_TTL)];
    var m2 := Step(m1, TakeCode(1, "c", "x"));
    assert HasCode(m2.procs, 1);
    acts := [Consented, TakeCode(1, "c", "x"), FirstToken(1, "t0", "f")];
    RunOne(m2, FirstToken(1, "t0", "f"));
    assert acts[1..] == [TakeCode(1, "c", "x"), FirstToken(1, "t0", "f")] && acts[1..][1..] == [FirstToken(1, "t0", "f")];
    assert Run(Start, acts) == Run(m1, acts[1..]) == Run(m2, acts[1..][1..]);
  }

  lemma {:induction false} KeepsLive(s: Store, todo: seq<Cmd>)
    requires forall c :: c in todo ==> !c.DelKeys?
    ensures ExecAll(s, todo).live == s.live
    decreases |todo|
  {
    if todo != [] {
      assert todo[0] in todo;
      KeepsLive(Exec(s, todo[0]), todo[1..]);
    }
  }

  lemma FinishSave(m: Machine, todo: seq<Cmd>)
    requires m.procs == map[1 := Sending(todo)] && |todo| <= 4 && forall c :: c in todo ==> !c.DelKeys?
    ensures var n := Run(m, Sends(1, 4) + [GiveUp(1)]);
            n.procs == map[] && n.mintedTokens == m.mintedTokens && n.store.live == m.store.live
  {
    Flush(m, 1, 4);
    KeepsLive(m.store, todo);
    RunJoin(m, Sends(1, 4), [GiveUp(1)]);
    RunOne(Run(m, Sends(1, 4)), GiveUp(1));
  }

  /** Then that request has sent everything and is over. */
  lemma FirstSaved() returns (acts: seq<Act>)
    ensures var m := Run(Start, acts);
            && m.procs == map[] && m.mintedTokens == {"t0"}
            && m.store.live == map["t0" := Entry(First, TTL)]
  {
    var first := FirstSet();
    FinishSave(Run(Start, first), SaveIndex("t0", First));
    acts := first + (Sends(1, 4) + [GiveUp(1)]);
    RunJoin(Start, first, Sends(1, 4) + [GiveUp(1)]);
  }

  /** Then the token is exchanged, up to the point where its successor is to be saved. */
  lemma FirstClaimed() returns (acts: seq<Act>)
    ensures var m := Run(Start, acts);
            && m.store.live == map[] && "t0" in m.store.used && m.store.used["t0"].sess == First
            && m.procs == map[1 := TokenTaken("t0", First, [])] && "t1" !in m.mintedTokens
  {
    var saved := FirstSaved();
    var m := Run(Start, saved);
    var a := TakeToken(1, "t0", "x", []);
    Request(m, a, 1, 3);
    ClaimCommands(m.store, "t0");
    acts := saved + ([a] + Sends(1, 3));
    RunJoin(Start, saved, [a] + Sends(1, 3));
    assert First.(scopes := First.scopes) == First;
  }

  lemma SuccessorSet(m: Machine)
    requires Inv(m) && Hist(m)
    requires m.store.live == map[] && m.procs == map[1 := TokenTaken("t0", First, [])] && "t1" !in m.mintedTokens
    ensures var n := DoNextToken(m, 1, "t1");
            && n.procs.Keys == {1} && n.store.live.Keys == {"t1"} && n.store.used == m.store.used
            && FlightsOf(n, "f") == {} && Unlisted(n, "f") == {"t1"}
  {
    var n := DoNextToken(m, 1, "t1");
    ListedMinted(m, Family("f"));
    assert n.store.live["t1"].sess == First && n.store.index == m.store.index;
    assert LiveOf(n, "f") == {"t1"};
    assert n.procs[1].Sending?;
  }

  /** A spent token presented while its successor's save is between SET and SADD: nothing of the
      family is in flight, and yet the answer leaves the successor alive. */
  lemma ReuseDuringSave() returns (acts: seq<Act>)
    ensures var m := Run(Start, acts);
            && 2 !in m.procs && Reuses(m, "t0") && m.store.used["t0"].sess.family == "f"
            && FlightsOf(m, "f") == {} && Unlisted(m, "f") == {"t1"}
            && LiveOf(Run(m, Commands(m, Claims(2, "t0", "x", []))), "f") == {"t1"}
  {
    var claimed := FirstClaimed();
    var m := Run(Start, claimed);
    Reachable(claimed);
    SuccessorSet(m);
    RunOne(m, NextToken(1, "t1"));
    acts := claimed + [NextToken(1, "t1")];
    RunJoin(Start, claimed, [NextToken(1, "t1")]);
    assert Run(Start, acts) == DoNextToken(m, 1, "t1");
    MissLeaves(acts, 2, "t0", "x", []);
  }

  /** A mass revocation lists the user's index, then the save of a first token adds to it, then
      the revocation deletes it. */
  lemma DeleteIndex(m: Machine)
    requires m.procs == map[1 := Sending(SaveIndex("t0", First))] && m.store == Empty.(live := map["t0" := Entry(First, TTL)])
    ensures var n := DoSend(DoSend(DoListUser(m, 2, "u"), 1), 2);
            && n.store.live == m.store.live && User("u") !in n.store.index
            && n.procs == map[1 := Sending(SaveIndex("t0", First)[1..]), 2 := Sending([])]
  {
    var m1 := DoListUser(m, 2, "u");
    assert m1.procs[2] == Sending([DelKeys({}, {User("u")})]);
    var m2 := DoSend(m1, 1);
    assert m2.procs[1] == Sending(SaveIndex("t0", First)[1..]) && m2.procs[2] == m1.procs[2];
    assert m2.store.live - {} == m.store.live;
    assert m2.procs[2].todo[1..] == [];
  }

  lemma IndexDeleted() returns (acts: seq<Act>)
    ensures var m := Run(Start, acts);
            && m.store.live == map["t0" := Entry(First, TTL)] && User("u") !in m.store.index
            && m.procs == map[1 := Sending(SaveIndex("t0", First)[1..]), 2 := Sending([])]
  {
    var first := FirstSet();
    var m := Run(Start, first);
    DeleteIndex(m);
    acts := first + ([ListUser(2, "u")] + ([Send(1)] + [Send(2)]));
    RunJoin(Start, first, [ListUser(2, "u")] + ([Send(1)] + [Send(2)]));
    RunThree(m, ListUser(2, "u"), Send(1), Send(2));
  }

  lemma RunThree(m: Machine, a: Act, b: Act, c: Act)
    ensures Run(m, [a] + ([b] + [c])) == Step(Step(Step(m, a), b), c)
  {
    RunOne(m, a);
    RunOne(Step(m, a), b);
    RunOne(Step(Step(m, a), b), c);
    RunJoin(m, [a], [b] + [c]);
    RunJoin(Step(m, a), [b], [c]);
  }

  lemma RestOfSave(s: Store)
    requires User("u") !in s.index
    ensures var s' := ExecAll(s, SaveIndex("t0", First)[1..]);
            s'.live == s.live && User("u") !in s'.index
  {
    var (e1, a, e2) := (ExpireIndex(User("u")), AddIndex(Family("f"), "t0"), ExpireIndex(Family("f")));
    assert SaveIndex("t0", First)[1..] == [e1] + [a, e2];
    ExecMore(s, e1, [a, e2]);
    ExecTwo(Exec(s, e1), a, e2);
  }

  /** When those requests are over the token is alive, and in no list that a later revocation of
      the user could read. */
  lemma RevocationDuringSave() returns (acts: seq<Act>)
    ensures var m := Run(Start, acts);
            && (forall p :: Todo(m.procs, p) == [])
            && "t0" in m.store.live && m.store.live["t0"].sess.user == "u" && "t0" !in Members(m.store.index, User("u"))
  {
    var deleted := IndexDeleted();
    var m := Run(Start, deleted);
    Flush(m, 1, 3);
    RestOfSave(m.store);
    acts := deleted + Sends(1, 3);
    RunJoin(Start, deleted, Sends(1, 3));
  }
}
