/** What a revocation of a family or a user leaves alive, after any interleaving of the commands
    of any requests; and when the indexes are complete. */
module OverlapTheorems {
  import opened Names
  import opened RefreshKeys
  import opened GrantChains
  import opened GrantTheorems
  import opened GrantOperations
  import opened GrantOverlaps
  import RefreshStore

  // ---- The reuse response ----

  /** The family's live tokens that its index does not list. */
  function Unlisted(m: Machine, f: FamilyId): set<Token> {
    LiveOf(m, f) - Members(m.store.index, Family(f))
  }

  /** A live token that a family's index lists is of that family. */
  lemma ListedInFamily(m: Machine, f: FamilyId, t: Token)
    requires Inv(m) && ListedOk(m.store.index, m.lines)
    requires t in m.store.live && t in Members(m.store.index, Family(f))
    ensures m.store.live[t].sess.family == f
  {
    var g := m.store.live[t].sess.family;
    assert LiveOk(m.store.live, m.lines, t);
    assert At(m.lines, g, |m.lines[g]| - 1, t);
    var h, i :| At(m.lines, h, i, t) && Owns(Family(f), m.lines[h][i].sess);
  }

  lemma ListedOfUser(m: Machine, u: UserId, t: Token)
    requires Inv(m) && ListedOk(m.store.index, m.lines)
    requires t in m.store.live && t in Members(m.store.index, User(u))
    ensures m.store.live[t].sess.user == u
  {
    var g := m.store.live[t].sess.family;
    assert LiveOk(m.store.live, m.lines, t);
    assert At(m.lines, g, |m.lines[g]| - 1, t);
    var h, i :| At(m.lines, h, i, t) && Owns(User(u), m.lines[h][i].sess);
  }

  lemma SweepLeaves(m: Machine, m': Machine, f: FamilyId)
    requires Inv(m) && ListedOk(m.store.index, m.lines)
    requires m'.store.live == m.store.live - Members(m.store.index, Family(f))
    ensures LiveOf(m', f) == Unlisted(m, f)
    ensures forall g :: g != f ==> LiveOf(m', g) == LiveOf(m, g)
  {
    forall x | x in m.store.live && x in Members(m.store.index, Family(f)) ensures m.store.live[x].sess.family == f {
      ListedInFamily(m, f, x);
    }
    SweptLive(m, m', f);
  }

  lemma SweptLive(m: Machine, m': Machine, f: FamilyId)
    requires m'.store.live == m.store.live - Members(m.store.index, Family(f))
    requires forall x :: x in m.store.live && x in Members(m.store.index, Family(f)) ==> m.store.live[x].sess.family == f
    ensures LiveOf(m', f) == Unlisted(m, f)
    ensures forall g :: g != f ==> LiveOf(m', g) == LiveOf(m, g)
  {
  }

  lemma MissSweeps(s: Store, t: Token)
    requires t !in s.live && t in s.used && s.used[t].sess.family != ""
    ensures RefreshStore.GetAndConsume(s, t).0.live == s.live - Members(s.index, Family(s.used[t].sess.family))
  {
  }

  /** Presenting a spent token at any moment of any run: its family keeps exactly the live tokens
      its index does not list, and every other family all of its own. */
  lemma MissLeaves(acts: seq<Act>, p: nat, t: Token, client: ClientId, requested: seq<Scope>)
    requires p !in Run(Start, acts).procs && Reuses(Run(Start, acts), t)
    ensures var m := Run(Start, acts);
            var m' := Run(m, Commands(m, Claims(p, t, client, requested)));
            var f := m.store.used[t].sess.family;
            && f in m.origins && m' == m.(store := RefreshStore.GetAndConsume(m.store, t).0)
            && LiveOf(m', f) == Unlisted(m, f)
            && forall g :: g != f ==> LiveOf(m', g) == LiveOf(m, g)
  {
    Reachable(acts);
    var m := Run(Start, acts);
    MissEffect(m, p, t, client, requested);
    MissSweeps(m.store, t);
    SweepLeaves(m, m.(store := RefreshStore.GetAndConsume(m.store, t).0), m.store.used[t].sess.family);
  }

  /** In any state a started family can have a live token again if and only if it has one or one of
      its exchanges is between consuming and saving. */
  lemma FamilyCanReturn(m: Machine, f: FamilyId)
    requires f in m.origins
    ensures (exists more :: LiveOf(Run(m, more), f) != {}) <==> LiveOf(m, f) != {} || FlightsOf(m, f) != {}
  {
    if LiveOf(m, f) != {} {
      assert Run(m, []) == m;
    } else if q :| q in FlightsOf(m, f) {
      var more := FlightCanLand(m, q);
    } else {
      forall q ensures !InFlight(m.procs, q, f) {
        assert q in FlightsOf(m, f) <==> InFlight(m.procs, q, f);
      }
      assert forall x :: x in m.store.live && m.store.live[x].sess.family == f ==> x in LiveOf(m, f);
      assert Over(m, f);
      forall more ensures LiveOf(Run(m, more), f) == {} {
        OverForGood(m, more, f);
      }
    }
  }

  /** After that answer the family can ever have a live token again if and only if, at that
      moment, one of its exchanges was between consuming and saving, or its index did not list
      one of its live tokens. */
  lemma ReuseEndsFamily(acts: seq<Act>, p: nat, t: Token, client: ClientId, requested: seq<Scope>)
    requires p !in Run(Start, acts).procs && Reuses(Run(Start, acts), t)
    ensures var m := Run(Start, acts);
            var m' := Run(m, Commands(m, Claims(p, t, client, requested)));
            var f := m.store.used[t].sess.family;
            (exists more :: LiveOf(Run(m', more), f) != {}) <==> FlightsOf(m, f) != {} || Unlisted(m, f) != {}
  {
    MissLeaves(acts, p, t, client, requested);
    var m := Run(Start, acts);
    var m' := m.(store := RefreshStore.GetAndConsume(m.store, t).0);
    FamilyCanReturn(m', m.store.used[t].sess.family);
    assert FlightsOf(m', m.store.used[t].sess.family) == FlightsOf(m, m.store.used[t].sess.family);
  }

  /** Request p takes no part in these steps. */
  predicate LeavesAlone(acts: seq<Act>, p: nat) {
    forall i :: 0 <= i < |acts| ==> acts[i].Consent? || acts[i].Pass? || acts[i].p != p
  }

  lemma {:induction false} UntouchedRun(m: Machine, acts: seq<Act>, p: nat)
    requires LeavesAlone(acts, p) && p in m.procs
    ensures p in Run(m, acts).procs && Run(m, acts).procs[p] == m.procs[p]
    decreases |acts|
  {
    if acts != [] {
      Untouched(m, acts[0], p);
      UntouchedRun(Step(m, acts[0]), acts[1..], p);
    }
  }

  lemma Untouched(m: Machine, a: Act, p: nat)
    requires (a.Consent? || a.Pass? || a.p != p) && p in m.procs
    ensures p in Step(m, a).procs && Step(m, a).procs[p] == m.procs[p]
  {
  }

  lemma FirstSweep(s: Store, sess: Session)
    requires Members(s.index, Family(sess.family)) != {}
    ensures FamilyCommands(s, sess)[0] == DelKeys(Members(s.index, Family(sess.family)), {})
  {
  }

  /** A reuse response whose commands do come apart: p lists the family in state m and sends its DEL
      after any steps of other requests. Then the family keeps what lives by then and was not
      listed in m, and can return if and only if that is something or an exchange is in flight. */
  lemma LateDelLeaves(m: Machine, between: seq<Act>, p: nat, sess: Session)
    requires p in m.procs && m.procs[p] == TombstoneRead(sess) && sess.family != "" && LeavesAlone(between, p)
    requires Members(m.store.index, Family(sess.family)) != {}
    requires sess.family in Run(DoListFamily(m, p), between).origins
    ensures var f := sess.family;
            var m1 := Run(DoListFamily(m, p), between);
            var m2 := DoSend(m1, p);
            && LiveOf(m2, f) == LiveOf(m1, f) - Members(m.store.index, Family(f))
            && ((exists more :: LiveOf(Run(m2, more), f) != {}) <==>
                  LiveOf(m1, f) - Members(m.store.index, Family(f)) != {} || FlightsOf(m1, f) != {})
  {
    var f, m0 := sess.family, DoListFamily(m, p);
    var m1 := Run(m0, between);
    UntouchedRun(m0, between, p);
    assert m0.procs[p] == Sending(FamilyCommands(m.store, sess));
    FirstSweep(m.store, sess);
    SweptBy(m1, p, Members(m.store.index, Family(f)), f);
    FamilyCanReturn(DoSend(m1, p), f);
  }

  lemma SweptBy(m: Machine, p: nat, ts: set<Token>, f: FamilyId)
    requires p in m.procs && m.procs[p].Sending? && m.procs[p].todo != [] && m.procs[p].todo[0] == DelKeys(ts, {})
    ensures var m' := DoSend(m, p);
            LiveOf(m', f) == LiveOf(m, f) - ts && FlightsOf(m', f) == FlightsOf(m, f) && m'.origins == m.origins
  {
    var m' := DoSend(m, p);
    assert m'.store.live == m.store.live - ts;
    forall q ensures InFlight(m'.procs, q, f) <==> InFlight(m.procs, q, f) {
    }
  }

  /** When no other operation is between its commands, only an exchange in flight can. */
  lemma ReuseEndsFamilyInRuns(ops: seq<Op>, p: nat, t: Token, client: ClientId, requested: seq<Scope>)
    requires p !in AfterOps(ops).procs && Reuses(AfterOps(ops), t)
    ensures var m := AfterOps(ops);
            var m' := Run(m, Commands(m, Claims(p, t, client, requested)));
            var f := m.store.used[t].sess.family;
            && f in m.origins && LiveOf(m', f) == {}
            && ((exists more :: LiveOf(Run(m', more), f) != {}) <==> FlightsOf(m, f) != {})
  {
    AsCommands(ops);
    CommandsRefineOperations(ops);
    var m := AfterOps(ops);
    MissLeaves(AllCommands(ops), p, t, client, requested);
    ReuseEndsFamily(AllCommands(ops), p, t, client, requested);
    AllListed(m, m.store.used[t].sess.family);
  }

  lemma AllListed(m: Machine, f: FamilyId)
    requires RefreshStore.Indexed(m.store)
    ensures Unlisted(m, f) == {}
  {
    forall x | x in LiveOf(m, f) ensures x in Members(m.store.index, Family(f)) {
      assert RefreshStore.Covers(m.store.index, Family(f), x, m.store.live[x].exp);
    }
  }

  // ---- When an index lists a live token ----

  /** t is in o's index, or some request has still to add it. */
  ghost predicate Promised(m: Machine, o: Owner, t: Token) {
    t in Members(m.store.index, o) || exists p :: Adds(m.procs, p, o, t)
  }

  /** The three ways to lose it for good: the request that saved t stops before it adds t; a
      revocation that did not see t deletes the index; or the index expires with t in it. */
  predicate Loses(m: Machine, a: Act, o: Owner, t: Token) {
    match a
    case GiveUp(p) => Adds(m.procs, p, o, t)
    case Send(p) =>
      && Todo(m.procs, p) != [] && Todo(m.procs, p)[0].DelKeys? && o in Todo(m.procs, p)[0].os
      && t in Members(m.store.index, o)
    case Pass(d) =>
      && o in m.store.index && m.store.index[o].exp.Some? && m.store.index[o].exp.value <= m.store.now + d
      && t in Members(m.store.index, o)
    case _ => false
  }

  predicate EverLost(m: Machine, acts: seq<Act>, o: Owner, t: Token)
    decreases |acts|
  {
    acts != [] && (Loses(m, acts[0], o, t) || EverLost(Step(m, acts[0]), acts[1..], o, t))
  }

  lemma OldTokens(m: Machine, a: Act, t: Token)
    requires t in m.mintedTokens
    ensures t in Step(m, a).mintedTokens
    ensures t in Step(m, a).store.live ==> t in m.store.live && Step(m, a).store.live[t] == m.store.live[t]
  {
    if Quiet(a) {
      QuietIsCalmer(m, a);
    }
  }

  lemma {:induction false} OldTokensRun(m: Machine, acts: seq<Act>, t: Token)
    requires t in m.mintedTokens && t in Run(m, acts).store.live
    ensures t in m.store.live && Run(m, acts).store.live[t] == m.store.live[t]
    decreases |acts|
  {
    if acts != [] {
      OldTokens(m, acts[0], t);
      OldTokensRun(Step(m, acts[0]), acts[1..], t);
    }
  }

  /** The steps that only take commands on, by one request that had none. */
  ghost predicate TakesOn(m: Machine, m': Machine) {
    && m'.store.index == m.store.index
    && (forall p, c :: c in Todo(m.procs, p) ==> c in Todo(m'.procs, p))
    && (forall p, o, t :: Adds(m'.procs, p, o, t) && t in m.mintedTokens ==> Adds(m.procs, p, o, t))
  }

  lemma SaveTakesOn(m: Machine, a: Act)
    requires a.FirstToken? || a.NextToken?
    ensures TakesOn(m, Step(m, a))
  {
  }

  lemma TakeTakesOn(m: Machine, p: nat, t: Token, client: ClientId, requested: seq<Scope>)
    ensures TakesOn(m, DoTakeToken(m, p, t, client, requested))
  {
  }

  lemma TakePeekedTakesOn(m: Machine, p: nat)
    ensures TakesOn(m, DoTakePeeked(m, p))
  {
  }

  lemma ListTakesOn(m: Machine, p: nat, u: UserId)
    ensures TakesOn(m, DoListFamily(m, p)) && TakesOn(m, DoListUser(m, p, u))
  {
  }

  lemma ReadTakesOn(m: Machine, a: Act)
    requires a.Consent? || a.TakeCode? || a.ReadTombstone? || a.Peek?
    ensures TakesOn(m, Step(m, a))
  {
  }

  lemma OtherSteps(m: Machine, a: Act)
    requires !a.Send? && !a.GiveUp? && !a.Pass?
    ensures TakesOn(m, Step(m, a))
  {
    match a
    case FirstToken(_, _, _) => SaveTakesOn(m, a);
    case NextToken(_, _) => SaveTakesOn(m, a);
    case TakeToken(p, t, client, requested) => TakeTakesOn(m, p, t, client, requested);
    case TakePeeked(p) => TakePeekedTakesOn(m, p);
    case ListFamily(p) => ListTakesOn(m, p, "");
    case ListUser(p, u) => ListTakesOn(m, p, u);
    case _ => ReadTakesOn(m, a);
  }

  lemma NothingNewSent(m: Machine, p: nat, o: Owner, t: Token)
    ensures forall q :: Adds(DoSend(m, p).procs, q, o, t) ==> Adds(m.procs, q, o, t)
    ensures t in Members(DoSend(m, p).store.index, o) ==> Promised(m, o, t)
  {
    if CanSend(m, p) && m.procs[p].todo != [] {
      var c := m.procs[p].todo[0];
      assert c in Todo(m.procs, p);
      if c.RemIndex? { RefreshStore.Shrunk(m.store.index, c.o, c.ts); }
      assert c == AddIndex(o, t) ==> Adds(m.procs, p, o, t);
    }
  }

  /** A token once issued is added to no index but by the commands already waiting. */
  lemma NothingNew(m: Machine, a: Act, o: Owner, t: Token)
    requires t in m.mintedTokens
    ensures forall p :: Adds(Step(m, a).procs, p, o, t) ==> Adds(m.procs, p, o, t)
    ensures t in Members(Step(m, a).store.index, o) ==> Promised(m, o, t)
  {
    match a
    case Send(p) => NothingNewSent(m, p, o, t);
    case GiveUp(_) =>
    case Pass(_) =>
    case _ => OtherSteps(m, a);
  }

  lemma StaysLost(m: Machine, a: Act, o: Owner, t: Token)
    requires t in m.mintedTokens && !Promised(m, o, t)
    ensures t in Step(m, a).mintedTokens && !Promised(Step(m, a), o, t)
  {
    OldTokens(m, a, t);
    NothingNew(m, a, o, t);
  }

  lemma {:induction false} LostForGood(m: Machine, acts: seq<Act>, o: Owner, t: Token)
    requires t in m.mintedTokens && !Promised(m, o, t)
    ensures !Promised(Run(m, acts), o, t)
    decreases |acts|
  {
    if acts != [] {
      StaysLost(m, acts[0], o, t);
      LostForGood(Step(m, acts[0]), acts[1..], o, t);
    }
  }

  lemma SendPromise(m: Machine, p: nat, o: Owner, t: Token)
    requires Hist(m) && CanSend(m, p) && m.procs[p].todo != []
    requires t in m.store.live && t in DoSend(m, p).store.live && Promised(m, o, t)
    ensures Promised(DoSend(m, p), o, t) <==> !Loses(m, Send(p), o, t)
  {
    var m', todo := DoSend(m, p), Todo(m.procs, p);
    var c := todo[0];
    assert Orderly(todo, m.store.live.Keys);
    TailHist(m, p);
    forall q | Adds(m.procs, q, o, t) && c != AddIndex(o, t) ensures Adds(m'.procs, q, o, t) {
      if q == p { assert todo == [c] + todo[1..]; }
    }
    if c == AddIndex(o, t) {
      assert t in Members(m'.store.index, o) && !Loses(m, Send(p), o, t);
    } else if t in Members(m.store.index, o) {
      assert forall q :: !Adds(m.procs, q, o, t);
      assert forall q :: Adds(m'.procs, q, o, t) ==> Adds(m.procs, q, o, t);
    }
  }

  lemma PassPromise(m: Machine, d: nat, o: Owner, t: Token)
    requires Hist(m) && Promised(m, o, t)
    ensures Promised(DoPass(m, d), o, t) <==> !Loses(m, Pass(d), o, t)
  {
    var m' := DoPass(m, d);
    assert forall q :: Adds(m'.procs, q, o, t) <==> Adds(m.procs, q, o, t);
  }

  lemma GiveUpPromise(m: Machine, p: nat, o: Owner, t: Token)
    requires Hist(m) && Promised(m, o, t)
    ensures Promised(DoGiveUp(m, p), o, t) <==> !Loses(m, GiveUp(p), o, t)
  {
    var m' := DoGiveUp(m, p);
    assert forall q :: Adds(m'.procs, q, o, t) <==> q != p && Adds(m.procs, q, o, t);
  }

  lemma OtherPromise(m: Machine, a: Act, o: Owner, t: Token)
    requires !a.Send? && !a.GiveUp? && !a.Pass? && Promised(m, o, t)
    ensures Promised(Step(m, a), o, t) && !Loses(m, a, o, t)
  {
    OtherSteps(m, a);
    if p :| Adds(m.procs, p, o, t) {
      assert Adds(Step(m, a).procs, p, o, t);
    }
  }

  lemma StepPromise(m: Machine, a: Act, o: Owner, t: Token)
    requires Hist(m) && t in m.store.live && t in Step(m, a).store.live && Promised(m, o, t)
    ensures Promised(Step(m, a), o, t) <==> !Loses(m, a, o, t)
  {
    match a
    case Send(p) =>
      if CanSend(m, p) && m.procs[p].todo != [] { SendPromise(m, p, o, t); }
    case GiveUp(p) => GiveUpPromise(m, p, o, t);
    case Pass(d) => PassPromise(m, d, o, t);
    case _ => OtherPromise(m, a, o, t);
  }

  lemma NewPromise(m: Machine, a: Act, t: Token)
    requires t !in m.mintedTokens && t in Step(m, a).mintedTokens
    ensures t in Step(m, a).store.live
    ensures forall o :: Owns(o, Step(m, a).store.live[t].sess) ==> Promised(Step(m, a), o, t)
  {
    var m' := Step(m, a);
    assert a.FirstToken? || a.NextToken?;
    var sess := m'.store.live[t].sess;
    assert m'.procs[a.p] == Sending(SaveIndex(t, sess));
    forall o | Owns(o, sess) ensures Promised(m', o, t) {
      assert AddIndex(o, t) in SaveIndex(t, sess);
      assert Adds(m'.procs, a.p, o, t);
    }
  }

  lemma NotYet(m: Machine, a: Act, o: Owner, t: Token)
    requires Inv(m) && Hist(m) && t !in m.mintedTokens
    ensures !Loses(m, a, o, t)
  {
    ListedMinted(m, o);
  }

  lemma {:induction false} PromiseRun(m: Machine, acts: seq<Act>, o: Owner, t: Token)
    requires Inv(m) && Hist(m) && (t in m.mintedTokens ==> Promised(m, o, t))
    requires t in Run(m, acts).store.live && Owns(o, Run(m, acts).store.live[t].sess)
    ensures Promised(Run(m, acts), o, t) <==> !EverLost(m, acts, o, t)
    decreases |acts|
  {
    if acts == [] {
      LiveMinted(m, t);
    } else {
      var a, rest := acts[0], acts[1..];
      var m1 := Step(m, a);
      StepInv(m, a);
      StepHist(m, a);
      if t in m1.mintedTokens {
        OldTokensRun(m1, rest, t);
      }
      if t !in m.mintedTokens {
        NotYet(m, a, o, t);
        if t in m1.mintedTokens { NewPromise(m, a, t); }
        PromiseRun(m1, rest, o, t);
      } else {
        OldTokens(m, a, t);
        StepPromise(m, a, o, t);
        if Loses(m, a, o, t) {
          LostForGood(m1, rest, o, t);
        } else {
          PromiseRun(m1, rest, o, t);
        }
      }
    }
  }

  /** After every run, a live token is missing from its user's or its family's index if and only
      if its save has still to add it there, or it was lost there by one of the three ways. */
  lemma UnlistedExactly(acts: seq<Act>, o: Owner, t: Token)
    requires t in Run(Start, acts).store.live && Owns(o, Run(Start, acts).store.live[t].sess)
    ensures var m := Run(Start, acts);
            t !in Members(m.store.index, o) <==> (exists p :: Adds(m.procs, p, o, t)) || EverLost(Start, acts, o, t)
  {
    StartHist();
    assert t !in Start.mintedTokens;
    PromiseRun(Start, acts, o, t);
    Reachable(acts);
    NotBoth(Run(Start, acts), o, t);
  }

  lemma NotBoth(m: Machine, o: Owner, t: Token)
    requires Hist(m)
    ensures t in Members(m.store.index, o) ==> forall p :: !Adds(m.procs, p, o, t)
  {
  }

  // ---- Mass revocation ----

  /** SMEMBERS and DEL with no command in between, at any moment of any run: the user keeps
      exactly the live tokens the user's index does not list, and everybody else all of theirs. */
  lemma RevokeUserLeaves(acts: seq<Act>, p: nat, u: UserId, t: Token)
    requires p !in Run(Start, acts).procs
    ensures var m := Run(Start, acts);
            t in Run(m, Commands(m, RevokesUser(p, u))).store.live <==>
              t in m.store.live && !(m.store.live[t].sess.user == u && t in Members(m.store.index, User(u)))
  {
    Reachable(acts);
    var m := Run(Start, acts);
    RevokeUserEffect(m, p, u);
    if t in m.store.live && t in Members(m.store.index, User(u)) {
      ListedOfUser(m, u, t);
    }
  }

  /** A mass revocation whose two commands come apart: p lists the user's tokens in state m and sends
      its DEL after any steps of other requests. Exactly the listed tokens go. */
  lemma LateUserDelLeaves(m: Machine, between: seq<Act>, p: nat, u: UserId, t: Token)
    requires p !in m.procs && LeavesAlone(between, p)
    ensures var m1 := Run(DoListUser(m, p, u), between);
            t in DoSend(m1, p).store.live <==> t in m1.store.live && t !in Members(m.store.index, User(u))
  {
    UntouchedRun(DoListUser(m, p, u), between, p);
  }

  /** So the user keeps what was saved, or not listed, by the time of the listing, and nobody else
      loses a token. */
  lemma LateUserDelExactly(before: seq<Act>, between: seq<Act>, p: nat, u: UserId, t: Token)
    requires p !in Run(Start, before).procs && LeavesAlone(between, p)
    ensures var m := Run(Start, before);
            var m1 := Run(DoListUser(m, p, u), between);
            t in DoSend(m1, p).store.live <==>
              t in m1.store.live && !(m1.store.live[t].sess.user == u && t in Members(m.store.index, User(u)))
  {
    var m := Run(Start, before);
    var m1 := Run(DoListUser(m, p, u), between);
    LateUserDelLeaves(m, between, p, u, t);
    if t in m1.store.live && t in Members(m.store.index, User(u)) {
      Reachable(before);
      ListedMinted(m, User(u));
      var acts := [ListUser(p, u)] + between;
      assert acts[1..] == between;
      OldTokensRun(m, acts, t);
      ListedOfUser(m, u, t);
    }
  }
}
