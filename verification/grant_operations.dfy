/** Whole operations as runs of the commands of GrantChains: uninterrupted, each has exactly
    the effect that RefreshStore gives it, while other exchanges may be in flight. */
module GrantOperations {
  import opened Names
  import opened RefreshKeys
  import opened GrantChains
  import opened GrantTheorems
  import RefreshStore

  datatype Op =
    | Consents(code: Code, user: UserId, client: ClientId, scopes: seq<Scope>, allowed: set<Scope>)
    | Redeems(p: nat, code: Code, client: ClientId)
    | Starts(p: nat, t: Token, f: FamilyId)
    | Claims(p: nat, t: Token, client: ClientId, requested: seq<Scope>)
    | Lands(p: nat, t: Token)
    | Abandons(p: nat)
    | Revokes(p: nat, t: Token, client: ClientId)
    | RevokesUser(p: nat, u: UserId)
    | Elapses(seconds: nat)

  // ---- The commands of one operation ----

  function Sends(p: nat, n: nat): seq<Act> {
    if n == 0 then [] else [Send(p)] + Sends(p, n - 1)
  }

  predicate CanStart(m: Machine, p: nat, t: Token, f: FamilyId) {
    HasCode(m.procs, p) && t !in m.mintedTokens && f !in m.origins && f != "" && "offline_access" in m.procs[p].grant.scopes
  }

  predicate CanLand(m: Machine, p: nat, t: Token) {
    HasToken(m.procs, p) && m.procs[p].todo == [] && t !in m.mintedTokens
  }

  predicate CanRevoke(m: Machine, p: nat, t: Token, client: ClientId) {
    p !in m.procs && t in m.store.live && m.store.live[t].sess.client == client
  }

  predicate Reuses(m: Machine, t: Token) {
    t !in m.store.live && t in m.store.used
  }

  /** What the operation sends, one command after the other; a request that is over leaves. */
  function Commands(m: Machine, op: Op): seq<Act> {
    match op
    case Consents(code, user, client, scopes, allowed) => [Consent(code, user, client, scopes, allowed)]
    case Redeems(p, code, client) => [TakeCode(p, code, client)]
    case Starts(p, t, f) =>
      [FirstToken(p, t, f)] + if CanStart(m, p, t, f) then Sends(p, 4) + [GiveUp(p)] else []
    case Claims(p, t, client, requested) =>
      if p in m.procs then []
      else if t in m.store.live then
        [TakeToken(p, t, client, requested)] + Sends(p, 3) + if m.store.live[t].sess.client == client then [] else [GiveUp(p)]
      else
        [TakeToken(p, t, client, requested), ReadTombstone(p)]
        + if Reuses(m, t) then [ListFamily(p)] + Sends(p, 3) + [GiveUp(p)] else []
    case Lands(p, t) => if CanLand(m, p, t) then [NextToken(p, t)] + Sends(p, 4) + [GiveUp(p)] else []
    case Abandons(p) => [GiveUp(p)]
    case Revokes(p, t, client) =>
      if CanRevoke(m, p, t, client) then [Peek(p, t, client), TakePeeked(p)] + Sends(p, 2) + [GiveUp(p)] else []
    case RevokesUser(p, u) => if p in m.procs then [] else [ListUser(p, u)] + Sends(p, 1) + [GiveUp(p)]
    case Elapses(d) => [Pass(d)]
  }

  /** The operation of the refresh-token store that it amounts to. */
  function StoreOp(m: Machine, op: Op): Option<RefreshStore.Op> {
    match op
    case Starts(p, t, f) =>
      if !CanStart(m, p, t, f) then None
      else
        var g := m.procs[p].grant;
        Some(RefreshStore.Issue(t, Session(g.user, g.client, g.scopes, g.authTime, ""), f))
    case Claims(p, t, _, _) => if p in m.procs then None else Some(RefreshStore.Consume(t))
    case Lands(p, t) => if CanLand(m, p, t) then Some(RefreshStore.Issue(t, m.procs[p].sess, "")) else None
    case Revokes(p, t, client) => if CanRevoke(m, p, t, client) then Some(RefreshStore.Remove(t)) else None
    case RevokesUser(p, u) => if p in m.procs then None else Some(RefreshStore.RevokeUser(u))
    case Elapses(d) => Some(RefreshStore.Pass(d))
    case _ => None
  }

  function DoOp(w: RefreshStore.World, o: Option<RefreshStore.Op>): RefreshStore.World {
    match o
    case None => w
    case Some(op) => RefreshStore.Do(w, op)
  }

  // ---- Running commands ----

  lemma {:induction false} RunJoin(m: Machine, a: seq<Act>, b: seq<Act>)
    ensures Run(m, a + b) == Run(Run(m, a), b)
    decreases |a|
  {
    if a == [] {
      assert a + b == b;
    } else {
      RunJoin(Step(m, a[0]), a[1..], b);
      assert (a + b)[1..] == a[1..] + b;
    }
  }

  lemma RunOne(m: Machine, a: Act)
    ensures Run(m, [a]) == Step(m, a)
  {
  }

  function ExecAll(s: Store, todo: seq<Cmd>): Store
    decreases |todo|
  {
    if todo == [] then s else ExecAll(Exec(s, todo[0]), todo[1..])
  }

  predicate CanSend(m: Machine, p: nat) {
    p in m.procs && (m.procs[p].TokenTaken? || m.procs[p].Sending?)
  }

  lemma {:induction false} Flush(m: Machine, p: nat, n: nat)
    requires CanSend(m, p) && |m.procs[p].todo| <= n
    ensures Run(m, Sends(p, n)) == m.(store := ExecAll(m.store, m.procs[p].todo),
                                       procs := m.procs[p := m.procs[p].(todo := [])])
    decreases n
  {
    if n > 0 {
      var m1 := DoSend(m, p);
      assert Sends(p, n)[1..] == Sends(p, n - 1);
      Flush(m1, p, n - 1);
      if m.procs[p].todo == [] {
        assert m1 == m;
      } else {
        assert m1.procs[p := m1.procs[p].(todo := [])] == m.procs[p := m.procs[p].(todo := [])];
      }
    } else {
      assert m.procs[p := m.procs[p].(todo := [])] == m.procs;
    }
  }

  /** One command, whatever it left to send, and the end of the request. */
  lemma Request(m: Machine, a: Act, p: nat, n: nat)
    requires CanSend(Step(m, a), p) && |Step(m, a).procs[p].todo| <= n
    ensures var m1 := Step(m, a);
            && Run(m, [a] + Sends(p, n)) == m1.(store := ExecAll(m1.store, m1.procs[p].todo),
                                                procs := m1.procs[p := m1.procs[p].(todo := [])])
            && Run(m, [a] + Sends(p, n) + [GiveUp(p)]) == m1.(store := ExecAll(m1.store, m1.procs[p].todo), procs := m1.procs - {p})
  {
    var m1 := Step(m, a);
    RunOne(m, a);
    RunJoin(m, [a], Sends(p, n));
    Flush(m1, p, n);
    var m2 := Run(m, [a] + Sends(p, n));
    RunJoin(m, [a] + Sends(p, n), [GiveUp(p)]);
    RunOne(m2, GiveUp(p));
    assert m2.procs - {p} == m1.procs - {p};
  }

  // ---- What the commands of each kind do to the keys ----

  lemma ExecTwo(s: Store, a: Cmd, b: Cmd)
    ensures ExecAll(s, [a, b]) == Exec(Exec(s, a), b)
  {
    assert [a, b][1..] == [b] && [b][1..] == [];
    assert ExecAll(Exec(s, a), [b]) == ExecAll(Exec(Exec(s, a), b), []);
  }

  lemma ExecMore(s: Store, a: Cmd, todo: seq<Cmd>)
    ensures ExecAll(s, [a] + todo) == ExecAll(Exec(s, a), todo)
  {
    assert ([a] + todo)[1..] == todo;
  }

  lemma SaveCommands(s: Store, t: Token, sess: Session)
    ensures ExecAll(s.(live := s.live[t := Entry(sess, s.now + TTL)]), SaveIndex(t, sess)) == RefreshStore.Save(s, t, sess)
  {
    var s0 := s.(live := s.live[t := Entry(sess, s.now + TTL)]);
    var (u, f) := (User(sess.user), Family(sess.family));
    assert SaveIndex(t, sess) == [AddIndex(u, t)] + ([ExpireIndex(u)] + [AddIndex(f, t), ExpireIndex(f)]);
    ExecMore(s0, AddIndex(u, t), [ExpireIndex(u)] + [AddIndex(f, t), ExpireIndex(f)]);
    ExecMore(Exec(s0, AddIndex(u, t)), ExpireIndex(u), [AddIndex(f, t), ExpireIndex(f)]);
    ExecTwo(Exec(Exec(s0, AddIndex(u, t)), ExpireIndex(u)), AddIndex(f, t), ExpireIndex(f));
  }

  lemma DropCommands(s: Store, t: Token, sess: Session)
    ensures ExecAll(s, DropIndex(t, sess)) == s.(index := RefreshStore.Unindex(s.index, sess, t))
  {
    ExecTwo(s, RemIndex(User(sess.user), {t}), RemIndex(Family(sess.family), {t}));
  }

  lemma ClaimCommands(s: Store, t: Token)
    requires t in s.live
    ensures ExecAll(s.(live := s.live - {t}), [SetUsed(t, s.live[t].sess)] + DropIndex(t, s.live[t].sess))
            == RefreshStore.GetAndConsume(s, t).0
  {
    var sess := s.live[t].sess;
    var taken := s.(live := s.live - {t});
    assert ([SetUsed(t, sess)] + DropIndex(t, sess))[1..] == DropIndex(t, sess);
    DropCommands(Exec(taken, SetUsed(t, sess)), t, sess);
  }

  /** The commands that ListFamily leaves to send. */
  function FamilyCommands(s: Store, sess: Session): seq<Cmd> {
    var ts := Members(s.index, Family(sess.family));
    (if ts == {} then [] else [DelKeys(ts, {}), RemIndex(User(sess.user), ts)]) + [DelKeys({}, {Family(sess.family)})]
  }

  lemma FamilySweep(s: Store, sess: Session)
    requires sess.family != ""
    ensures ExecAll(s, FamilyCommands(s, sess)) == RefreshStore.RevokeFamily(s, sess.family, sess.user)
  {
    var ts := Members(s.index, Family(sess.family));
    var (del, rem, last) := (DelKeys(ts, {}), RemIndex(User(sess.user), ts), DelKeys({}, {Family(sess.family)}));
    var todo := FamilyCommands(s, sess);
    assert s.live - {} == s.live && s.index - {} == s.index;
    if ts == {} {
      assert todo == [last] + [];
      ExecMore(s, last, []);
    } else {
      assert todo == [del] + [rem, last];
      ExecMore(s, del, [rem, last]);
      ExecTwo(Exec(s, del), rem, last);
      var live, index := s.live - ts, SRem(s.index, User(sess.user), ts);
      assert live - {} == live;
      assert Exec(Exec(s, del), rem) == s.(live := live, index := index);
    }
  }

  // ---- Every operation is the store operation it amounts to ----

  lemma StartEffect(m: Machine, p: nat, t: Token, f: FamilyId, l: RefreshStore.Ledger)
    requires CanStart(m, p, t, f) && t !in l
    ensures var m' := Run(m, Commands(m, Starts(p, t, f)));
            && m'.store == DoOp(RefreshStore.World(m.store, l), StoreOp(m, Starts(p, t, f))).store
            && m'.mintedTokens == m.mintedTokens + {t} && m'.origins.Keys == m.origins.Keys + {f}
  {
    var g := m.procs[p].grant;
    Request(m, FirstToken(p, t, f), p, 4);
    assert [FirstToken(p, t, f)] + (Sends(p, 4) + [GiveUp(p)]) == [FirstToken(p, t, f)] + Sends(p, 4) + [GiveUp(p)];
    SaveCommands(m.store, t, Session(g.user, g.client, g.scopes, g.authTime, f));
  }

  lemma LandEffect(m: Machine, p: nat, t: Token, l: RefreshStore.Ledger)
    requires CanLand(m, p, t) && t !in l && m.procs[p].sess.family != ""
    ensures var m' := Run(m, Commands(m, Lands(p, t)));
            && m'.store == DoOp(RefreshStore.World(m.store, l), StoreOp(m, Lands(p, t))).store
            && m'.mintedTokens == m.mintedTokens + {t} && m'.origins == m.origins
  {
    Request(m, NextToken(p, t), p, 4);
    SaveCommands(m.store, t, m.procs[p].sess);
  }

  lemma ClaimEffect(m: Machine, p: nat, t: Token, client: ClientId, requested: seq<Scope>)
    requires p !in m.procs && t in m.store.live
    ensures var m' := Run(m, Commands(m, Claims(p, t, client, requested)));
            && m'.store == RefreshStore.GetAndConsume(m.store, t).0
            && m'.mintedTokens == m.mintedTokens && m'.origins == m.origins
  {
    var a := TakeToken(p, t, client, requested);
    Request(m, a, p, 3);
    ClaimCommands(m.store, t);
    assert [a] + Sends(p, 3) + [] == [a] + Sends(p, 3);
  }

  lemma TombstoneEffect(m: Machine, p: nat, sess: Session)
    requires p in m.procs && m.procs[p] == TombstoneRead(sess) && sess.family != ""
    ensures Run(m, [ListFamily(p)] + Sends(p, 3) + [GiveUp(p)])
            == m.(store := RefreshStore.RevokeFamily(m.store, sess.family, sess.user), procs := m.procs - {p})
  {
    assert DoListFamily(m, p).procs[p] == Sending(FamilyCommands(m.store, sess));
    Request(m, ListFamily(p), p, 3);
    FamilySweep(m.store, sess);
    assert DoListFamily(m, p).procs - {p} == m.procs - {p};
  }

  /** A miss leaves nothing behind but what the family revocation did to the keys. */
  lemma MissEffect(m: Machine, p: nat, t: Token, client: ClientId, requested: seq<Scope>)
    requires p !in m.procs && t !in m.store.live
    requires t in m.store.used ==> m.store.used[t].sess.family != ""
    ensures Run(m, Commands(m, Claims(p, t, client, requested))) == m.(store := RefreshStore.GetAndConsume(m.store, t).0)
  {
    var a := TakeToken(p, t, client, requested);
    var m1 := Step(m, a);
    var m2 := Step(m1, ReadTombstone(p));
    assert Run(m, [a, ReadTombstone(p)]) == m2 by {
      RunOne(m, a);
      RunOne(m1, ReadTombstone(p));
      RunJoin(m, [a], [ReadTombstone(p)]);
    }
    if t in m.store.used {
      var sess := m.store.used[t].sess;
      RunJoin(m, [a, ReadTombstone(p)], [ListFamily(p)] + Sends(p, 3) + [GiveUp(p)]);
      TombstoneEffect(m2, p, sess);
      assert m2.procs - {p} == m.procs;
    } else {
      assert Commands(m, Claims(p, t, client, requested)) == [a, ReadTombstone(p)];
      assert m2.procs == m.procs;
    }
  }

  lemma RevokeEffect(m: Machine, p: nat, t: Token, client: ClientId)
    requires CanRevoke(m, p, t, client)
    ensures var m' := Run(m, Commands(m, Revokes(p, t, client)));
            && m'.store == RefreshStore.Delete(m.store, t)
            && m'.mintedTokens == m.mintedTokens && m'.origins == m.origins
  {
    var m1 := Step(m, Peek(p, t, client));
    var rest := [TakePeeked(p)] + Sends(p, 2) + [GiveUp(p)];
    RunOne(m, Peek(p, t, client));
    RunJoin(m, [Peek(p, t, client)], rest);
    assert [Peek(p, t, client), TakePeeked(p)] + Sends(p, 2) + [GiveUp(p)] == [Peek(p, t, client)] + rest;
    Request(m1, TakePeeked(p), p, 2);
    DropCommands(m.store.(live := m.store.live - {t}), t, m.store.live[t].sess);
  }

  lemma RevokeUserEffect(m: Machine, p: nat, u: UserId)
    requires p !in m.procs
    ensures var m' := Run(m, Commands(m, RevokesUser(p, u)));
            && m'.store == RefreshStore.RevokeAllForUser(m.store, u)
            && m'.mintedTokens == m.mintedTokens && m'.origins == m.origins
  {
    Request(m, ListUser(p, u), p, 1);
    var todo := DoListUser(m, p, u).procs[p].todo;
    assert ExecAll(m.store, todo) == Exec(m.store, todo[0]);
  }

  /** Machine and ledger know the same tokens, and every token's family was started. */
  ghost predicate Matches(minted: set<Token>, origins: map<FamilyId, Origin>, l: RefreshStore.Ledger) {
    && l.Keys == minted
    && (forall t :: t in l ==> l[t].sess.family in origins)
    && "" !in origins
  }

  ghost predicate Tied(m: Machine, l: RefreshStore.Ledger) {
    Inv(m) && RefreshStore.Good(m.store, l) && Matches(m.mintedTokens, m.origins, l)
  }

  /** Every exchange in flight and every tombstone belongs to a family that has a name. */
  ghost predicate Named(m: Machine) {
    && (forall p :: HasToken(m.procs, p) ==> m.procs[p].sess.family in m.origins)
    && (forall t :: t in m.store.used ==> m.store.used[t].sess.family != "")
  }

  lemma TiedNamed(m: Machine, l: RefreshStore.Ledger)
    requires Tied(m, l)
    ensures Named(m)
  {
    forall p | HasToken(m.procs, p) ensures m.procs[p].sess.family in m.origins {
      assert FlightOk(m.store.live, m.procs, m.lines, p);
    }
  }

  lemma SameTokens(w: RefreshStore.World, op: RefreshStore.Op)
    requires !op.Issue?
    ensures var l := RefreshStore.Do(w, op).ledger;
            l.Keys == w.ledger.Keys && forall t :: t in l ==> l[t].sess == w.ledger[t].sess
  {
  }

  /** The machine after the commands of op, and the world after its store operation. */
  ghost predicate Effect(m: Machine, l: RefreshStore.Ledger, op: Op) {
    Agree(Run(m, Commands(m, op)), DoOp(RefreshStore.World(m.store, l), StoreOp(m, op)))
  }

  ghost predicate Agree(m: Machine, w: RefreshStore.World) {
    m.store == w.store && Matches(m.mintedTokens, m.origins, w.ledger)
  }

  lemma StartsEffect(m: Machine, l: RefreshStore.Ledger, p: nat, t: Token, f: FamilyId)
    requires Matches(m.mintedTokens, m.origins, l) && CanStart(m, p, t, f)
    ensures Effect(m, l, Starts(p, t, f))
  {
    StartEffect(m, p, t, f, l);
    var l' := DoOp(RefreshStore.World(m.store, l), StoreOp(m, Starts(p, t, f))).ledger;
    assert l'[t].sess.family == f && l'.Keys == l.Keys + {t};
  }

  lemma LandsEffect(m: Machine, l: RefreshStore.Ledger, p: nat, t: Token)
    requires Matches(m.mintedTokens, m.origins, l) && Named(m) && CanLand(m, p, t)
    ensures Effect(m, l, Lands(p, t))
  {
    assert m.procs[p].sess.family in m.origins;
    LandEffect(m, p, t, l);
    var l' := DoOp(RefreshStore.World(m.store, l), StoreOp(m, Lands(p, t))).ledger;
    assert l'[t].sess == m.procs[p].sess && l'.Keys == l.Keys + {t};
  }

  lemma ClaimsEffect(m: Machine, l: RefreshStore.Ledger, p: nat, t: Token, client: ClientId, requested: seq<Scope>)
    requires Matches(m.mintedTokens, m.origins, l) && Named(m) && p !in m.procs
    ensures Effect(m, l, Claims(p, t, client, requested))
  {
    SameTokens(RefreshStore.World(m.store, l), RefreshStore.Consume(t));
    assert StoreOp(m, Claims(p, t, client, requested)) == Some(RefreshStore.Consume(t));
    if t in m.store.live {
      ClaimEffect(m, p, t, client, requested);
    } else {
      MissEffect(m, p, t, client, requested);
    }
  }

  lemma RevokesEffect(m: Machine, l: RefreshStore.Ledger, p: nat, t: Token, client: ClientId)
    requires Matches(m.mintedTokens, m.origins, l) && CanRevoke(m, p, t, client)
    ensures Effect(m, l, Revokes(p, t, client))
  {
    SameTokens(RefreshStore.World(m.store, l), RefreshStore.Remove(t));
    assert StoreOp(m, Revokes(p, t, client)) == Some(RefreshStore.Remove(t));
    RevokeEffect(m, p, t, client);
  }

  lemma RevokesUserEffect(m: Machine, l: RefreshStore.Ledger, p: nat, u: UserId)
    requires Matches(m.mintedTokens, m.origins, l) && p !in m.procs
    ensures Effect(m, l, RevokesUser(p, u))
  {
    SameTokens(RefreshStore.World(m.store, l), RefreshStore.RevokeUser(u));
    assert StoreOp(m, RevokesUser(p, u)) == Some(RefreshStore.RevokeUser(u));
    RevokeUserEffect(m, p, u);
  }

  /** Operations of one command or of none. */
  lemma SmallEffect(m: Machine, l: RefreshStore.Ledger, op: Op)
    requires Matches(m.mintedTokens, m.origins, l)
    requires StoreOp(m, op).None? || op.Elapses?
    ensures Effect(m, l, op)
  {
    match op
    case Starts(p, t, f) =>
      assert Commands(m, op) == [FirstToken(p, t, f)];
      RunOne(m, FirstToken(p, t, f));
    case Consents(code, user, client, scopes, allowed) => RunOne(m, Consent(code, user, client, scopes, allowed));
    case Redeems(p, code, client) => RunOne(m, TakeCode(p, code, client));
    case Abandons(p) => RunOne(m, GiveUp(p));
    case Elapses(d) => RunOne(m, Pass(d));
    case _ => assert Commands(m, op) == [];
  }

  /** The keys after the commands of an operation are those after its store operation. */
  lemma OpEffect(m: Machine, l: RefreshStore.Ledger, op: Op)
    requires Matches(m.mintedTokens, m.origins, l) && Named(m)
    ensures Effect(m, l, op)
  {
    if StoreOp(m, op).None? || op.Elapses? {
      SmallEffect(m, l, op);
    } else {
      match op
      case Starts(p, t, f) => StartsEffect(m, l, p, t, f);
      case Claims(p, t, client, requested) => ClaimsEffect(m, l, p, t, client, requested);
      case Lands(p, t) => LandsEffect(m, l, p, t);
      case Revokes(p, t, client) => RevokesEffect(m, l, p, t, client);
      case RevokesUser(p, u) => RevokesUserEffect(m, l, p, u);
    }
  }

  lemma OpTied(m: Machine, l: RefreshStore.Ledger, op: Op)
    requires Tied(m, l)
    ensures Tied(Run(m, Commands(m, op)), DoOp(RefreshStore.World(m.store, l), StoreOp(m, op)).ledger)
  {
    TiedNamed(m, l);
    OpEffect(m, l, op);
    RunInv(m, Commands(m, op));
    var o := StoreOp(m, op);
    if o.Some? {
      RefreshStore.DoGood(RefreshStore.World(m.store, l), o.value);
    }
  }

  // ---- Runs of operations ----

  function AfterOps(ops: seq<Op>): Machine {
    if ops == [] then Start
    else
      var m := AfterOps(ops[..|ops| - 1]);
      Run(m, Commands(m, ops[|ops| - 1]))
  }

  /** What the same run is for the refresh-token store. */
  function StoreOps(ops: seq<Op>): seq<RefreshStore.Op> {
    if ops == [] then []
    else
      var (init, last) := (ops[..|ops| - 1], ops[|ops| - 1]);
      match StoreOp(AfterOps(init), last)
      case None => StoreOps(init)
      case Some(o) => StoreOps(init) + [o]
  }

  lemma {:induction false} AlwaysTied(ops: seq<Op>)
    ensures AfterOps(ops).store == RefreshStore.After(StoreOps(ops)).store
    ensures Tied(AfterOps(ops), RefreshStore.After(StoreOps(ops)).ledger)
  {
    if ops != [] {
      var init, last := ops[..|ops| - 1], ops[|ops| - 1];
      AlwaysTied(init);
      var m, w := AfterOps(init), RefreshStore.After(StoreOps(init));
      OpTied(m, w.ledger, last);
      TiedNamed(m, w.ledger);
      OpEffect(m, w.ledger, last);
      if StoreOp(m, last).Some? {
        var o := StoreOp(m, last).value;
        assert (StoreOps(init) + [o])[..|StoreOps(init)|] == StoreOps(init);
      }
    }
  }

  /** Every run of operations, each sent command by command and with exchanges in flight in
      between, leaves exactly the keys that the store operations leave; so what RefreshStore
      proves of its runs holds here. */
  lemma CommandsRefineOperations(ops: seq<Op>)
    ensures AfterOps(ops).store == RefreshStore.After(StoreOps(ops)).store
    ensures RefreshStore.Indexed(AfterOps(ops).store)
  {
    AlwaysTied(ops);
  }

  function AllCommands(ops: seq<Op>): seq<Act> {
    if ops == [] then []
    else
      var init := ops[..|ops| - 1];
      AllCommands(init) + Commands(AfterOps(init), ops[|ops| - 1])
  }

  lemma {:induction false} AsCommands(ops: seq<Op>)
    ensures AfterOps(ops) == Run(Start, AllCommands(ops))
  {
    if ops != [] {
      var init := ops[..|ops| - 1];
      AsCommands(init);
      RunJoin(Start, AllCommands(init), Commands(AfterOps(init), ops[|ops| - 1]));
    }
  }
}
