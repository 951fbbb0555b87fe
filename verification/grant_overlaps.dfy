/** What overlapping requests do to the indexes (oidc/refreshtoken.go): which tokens an index
    lists at every moment between two Redis commands, and so what a revocation misses. */
module GrantOverlaps {
  import opened Names
  import opened RefreshKeys
  import opened GrantChains
  import opened GrantTheorems
  import opened GrantOperations
  import RefreshStore

  function Todo(procs: map<nat, Proc>, p: nat): seq<Cmd> {
    if p in procs && (procs[p].TokenTaken? || procs[p].Sending?) then procs[p].todo else []
  }

  /** Request p has still to add t to o's index. */
  predicate Adds(procs: map<nat, Proc>, p: nat, o: Owner, t: Token) {
    AddIndex(o, t) in Todo(procs, p)
  }

  ghost predicate Issued(lines: map<FamilyId, seq<Link>>, o: Owner, t: Token) {
    exists f, i :: At(lines, f, i, t) && Owns(o, lines[f][i].sess)
  }

  // ---- What every command keeps, besides GrantChains.Inv ----

  ghost predicate CmdOk(c: Cmd, lines: map<FamilyId, seq<Link>>, origins: map<FamilyId, Origin>, minted: set<Token>) {
    match c
    case AddIndex(o, t) => Issued(lines, o, t)
    case SetUsed(_, sess) => sess.family in origins
    case RemIndex(_, ts) => ts <= minted
    case _ => true
  }

  ghost predicate SentOk(procs: map<nat, Proc>, lines: map<FamilyId, seq<Link>>, origins: map<FamilyId, Origin>, minted: set<Token>) {
    forall p, c :: c in Todo(procs, p) ==> CmdOk(c, lines, origins, minted)
  }

  /** An index lists only tokens issued to its owner. */
  ghost predicate ListedOk(index: map<Owner, Index>, lines: map<FamilyId, seq<Link>>) {
    forall o, t :: t in Members(index, o) ==> Issued(lines, o, t)
  }

  /** Every tombstone's family was started, and has a name. */
  ghost predicate TombsOk(used: map<Token, Entry>, origins: map<FamilyId, Origin>) {
    "" !in origins && forall t :: t in used ==> used[t].sess.family in origins
  }

  /** When an SREM comes to be sent none of its tokens is live. */
  predicate Orderly(todo: seq<Cmd>, live: set<Token>) {
    todo != [] ==>
      && (todo[0].RemIndex? ==> todo[0].ts !! live)
      && Orderly(todo[1..], if todo[0].DelKeys? then live - todo[0].ts else live)
  }

  ghost predicate OrderOk(procs: map<nat, Proc>, live: map<Token, Entry>) {
    forall p :: Orderly(Todo(procs, p), live.Keys)
  }

  predicate Once(todo: seq<Cmd>) {
    forall i, j :: 0 <= i < j < |todo| && todo[i].AddIndex? ==> todo[i] != todo[j]
  }

  /** A token is added to an index by one request, once, and is not in it before. */
  ghost predicate SavesOk(index: map<Owner, Index>, procs: map<nat, Proc>, minted: set<Token>) {
    && (forall p, o, t :: Adds(procs, p, o, t) ==> t in minted && t !in Members(index, o))
    && (forall p, q, o, t :: Adds(procs, p, o, t) && Adds(procs, q, o, t) ==> p == q)
    && (forall p :: Once(Todo(procs, p)))
  }

  ghost predicate Hist(m: Machine) {
    && SentOk(m.procs, m.lines, m.origins, m.mintedTokens)
    && ListedOk(m.store.index, m.lines)
    && TombsOk(m.store.used, m.origins)
    && OrderOk(m.procs, m.store.live)
    && SavesOk(m.store.index, m.procs, m.mintedTokens)
  }

  lemma {:induction false} OrderlyFewer(todo: seq<Cmd>, live: set<Token>, live': set<Token>)
    requires Orderly(todo, live)
    requires forall c, t :: c in todo && c.RemIndex? && t in c.ts && t in live' ==> t in live
    ensures Orderly(todo, live')
    decreases |todo|
  {
    if todo != [] {
      var d := if todo[0].DelKeys? then todo[0].ts else {};
      assert live - {} == live && live' - {} == live';
      forall c, t | c in todo[1..] && c.RemIndex? && t in c.ts && t in live' - d ensures t in live - d {
        assert c in todo;
      }
      OrderlyFewer(todo[1..], live - d, live' - d);
      assert todo[0] in todo;
    }
  }

  lemma ListedMinted(m: Machine, o: Owner)
    requires Inv(m) && ListedOk(m.store.index, m.lines)
    ensures Members(m.store.index, o) <= m.mintedTokens
  {
    forall t | t in Members(m.store.index, o) ensures t in m.mintedTokens {
      var f, i :| At(m.lines, f, i, t) && Owns(o, m.lines[f][i].sess);
    }
  }

  /** Everyone else's commands stay, and p has a new list without AddIndex. */
  ghost predicate OneTodo(procs: map<nat, Proc>, procs': map<nat, Proc>, p: nat) {
    && (forall q :: q != p ==> Todo(procs', q) == Todo(procs, q))
    && (forall c :: c in Todo(procs', p) ==> !c.AddIndex? || c in Todo(procs, p))
    && Once(Todo(procs', p))
  }

  /** A step that issues no token, adds to no index and leaves no new tombstone. */
  lemma PlainHist(m: Machine, m': Machine, p: nat)
    requires Hist(m) && OneTodo(m.procs, m'.procs, p)
    requires m'.lines == m.lines && m'.origins == m.origins && m'.mintedTokens == m.mintedTokens
    requires m'.store.live.Keys <= m.store.live.Keys && TombsOk(m'.store.used, m.origins)
    requires forall o :: Members(m'.store.index, o) <= Members(m.store.index, o)
    requires forall c :: c in Todo(m'.procs, p) ==> CmdOk(c, m.lines, m.origins, m.mintedTokens)
    requires Orderly(Todo(m'.procs, p), m'.store.live.Keys)
    ensures Hist(m')
  {
    forall q ensures Orderly(Todo(m'.procs, q), m'.store.live.Keys) {
      if q != p {
        OrderlyFewer(Todo(m.procs, q), m.store.live.Keys, m'.store.live.Keys);
      }
    }
    forall q, o, t | Adds(m'.procs, q, o, t) ensures Adds(m.procs, q, o, t) {
    }
    forall o, t | t in Members(m'.store.index, o) ensures Issued(m.lines, o, t) {
      assert t in Members(m.store.index, o);
    }
    forall q, o, t | Adds(m'.procs, q, o, t) ensures t in m.mintedTokens && t !in Members(m'.store.index, o) {
      assert Adds(m.procs, q, o, t);
    }
    forall q, r, o, t | Adds(m'.procs, q, o, t) && Adds(m'.procs, r, o, t) ensures q == r {
      assert Adds(m.procs, q, o, t) && Adds(m.procs, r, o, t);
    }
  }

  // ---- Sending ----

  lemma TailHist(m: Machine, p: nat)
    requires Hist(m) && CanSend(m, p) && m.procs[p].todo != []
    ensures OneTodo(m.procs, DoSend(m, p).procs, p)
    ensures Todo(DoSend(m, p).procs, p) == Todo(m.procs, p)[1..]
  {
    var todo := m.procs[p].todo;
    assert Todo(m.procs, p) == todo;
    assert Todo(DoSend(m, p).procs, p) == todo[1..];
    forall i, j | 0 <= i < j < |todo[1..]| && todo[1..][i].AddIndex? ensures todo[1..][i] != todo[1..][j] {
      assert todo[1..][i] == todo[i + 1] && todo[1..][j] == todo[j + 1];
    }
  }

  lemma ShrinkingSendHist(m: Machine, p: nat)
    requires Hist(m) && CanSend(m, p) && m.procs[p].todo != [] && !m.procs[p].todo[0].AddIndex?
    ensures Hist(DoSend(m, p))
  {
    var c, m' := m.procs[p].todo[0], DoSend(m, p);
    TailHist(m, p);
    assert c in Todo(m.procs, p) && CmdOk(c, m.lines, m.origins, m.mintedTokens);
    forall d | d in Todo(m'.procs, p) ensures CmdOk(d, m.lines, m.origins, m.mintedTokens) {
      assert d in Todo(m.procs, p);
    }
    if c.RemIndex? {
      RefreshStore.Shrunk(m.store.index, c.o, c.ts);
    }
    assert Orderly(Todo(m.procs, p), m.store.live.Keys);
    assert m'.store.live.Keys == if c.DelKeys? then m.store.live.Keys - c.ts else m.store.live.Keys;
    PlainHist(m, m', p);
  }

  lemma AddingSendHist(m: Machine, p: nat, o: Owner, t: Token)
    requires Hist(m) && CanSend(m, p) && m.procs[p].todo != [] && m.procs[p].todo[0] == AddIndex(o, t)
    ensures Hist(DoSend(m, p))
  {
    var m' := DoSend(m, p);
    TailHist(m, p);
    var todo, todo' := Todo(m.procs, p), Todo(m'.procs, p);
    assert Adds(m.procs, p, o, t) && Issued(m.lines, o, t) by {
      assert todo[0] in todo && CmdOk(todo[0], m.lines, m.origins, m.mintedTokens);
    }
    assert !Adds(m'.procs, p, o, t) by {
      assert Once(todo);
      forall j | 0 <= j < |todo'| ensures todo'[j] != AddIndex(o, t) {
        assert todo'[j] == todo[j + 1];
      }
    }
    forall q, c | c in Todo(m'.procs, q) ensures c in Todo(m.procs, q) {
    }
    forall x ensures Members(m'.store.index, x) == if x == o then Members(m.store.index, x) + {t} else Members(m.store.index, x) {
    }
    assert Orderly(todo, m.store.live.Keys);
    forall q ensures Orderly(Todo(m'.procs, q), m'.store.live.Keys) {
      assert Orderly(Todo(m.procs, q), m.store.live.Keys);
    }
    AddedSavesOk(m, m', p, o, t);
  }

  lemma AddedSavesOk(m: Machine, m': Machine, p: nat, o: Owner, t: Token)
    requires SavesOk(m.store.index, m.procs, m.mintedTokens) && OneTodo(m.procs, m'.procs, p)
    requires m'.mintedTokens == m.mintedTokens && Adds(m.procs, p, o, t) && !Adds(m'.procs, p, o, t)
    requires forall x :: Members(m'.store.index, x) == if x == o then Members(m.store.index, x) + {t} else Members(m.store.index, x)
    ensures SavesOk(m'.store.index, m'.procs, m'.mintedTokens)
  {
    forall q, x, y | Adds(m'.procs, q, x, y) ensures y in m.mintedTokens && y !in Members(m'.store.index, x) {
      assert Adds(m.procs, q, x, y);
    }
    forall q, r, x, y | Adds(m'.procs, q, x, y) && Adds(m'.procs, r, x, y) ensures q == r {
      assert Adds(m.procs, q, x, y) && Adds(m.procs, r, x, y);
    }
  }

  lemma SendHist(m: Machine, p: nat)
    requires Hist(m)
    ensures Hist(DoSend(m, p))
  {
    if CanSend(m, p) && m.procs[p].todo != [] {
      match m.procs[p].todo[0]
      case AddIndex(o, t) => AddingSendHist(m, p, o, t);
      case _ => ShrinkingSendHist(m, p);
    }
  }

  // ---- Saving ----

  lemma {:induction false} NoRemOrderly(todo: seq<Cmd>, live: set<Token>)
    requires forall c :: c in todo ==> !c.RemIndex?
    ensures Orderly(todo, live)
    decreases |todo|
  {
    if todo != [] {
      assert todo[0] in todo;
      NoRemOrderly(todo[1..], if todo[0].DelKeys? then live - todo[0].ts else live);
    }
  }

  lemma StaysIssued(lines: map<FamilyId, seq<Link>>, f: FamilyId, link: Link, o: Owner, t: Token)
    requires Issued(lines, o, t)
    ensures Issued(Grown(lines, f, link), o, t)
  {
    var g, i :| At(lines, g, i, t) && Owns(o, lines[g][i].sess);
    assert At(Grown(lines, f, link), g, i, t) && Grown(lines, f, link)[g][i] == lines[g][i];
  }

  lemma NewIssued(lines: map<FamilyId, seq<Link>>, link: Link, o: Owner)
    requires Owns(o, link.sess)
    ensures Issued(Grown(lines, link.sess.family, link), o, link.token)
  {
    var lines' := Grown(lines, link.sess.family, link);
    assert At(lines', link.sess.family, |lines'[link.sess.family]| - 1, link.token);
  }

  lemma SetLiveSent(m: Machine, n: Machine, p: nat, t: Token, sess: Session, parent: Option<Token>)
    requires Hist(m) && Todo(m.procs, p) == [] && t !in m.mintedTokens
    requires n == SetLive(m, p, t, sess, parent).(origins := n.origins)
    requires m.origins.Keys <= n.origins.Keys
    ensures SentOk(n.procs, n.lines, n.origins, n.mintedTokens) && ListedOk(n.store.index, n.lines)
  {
    var link := Link(t, parent, sess);
    forall q, c | c in Todo(n.procs, q) ensures CmdOk(c, n.lines, n.origins, n.mintedTokens) {
      if q == p {
        if c.AddIndex? { NewIssued(m.lines, link, c.o); }
      } else {
        assert c in Todo(m.procs, q) && CmdOk(c, m.lines, m.origins, m.mintedTokens);
        if c.AddIndex? { StaysIssued(m.lines, sess.family, link, c.o, c.t); }
      }
    }
    forall o, x | x in Members(n.store.index, o) ensures Issued(n.lines, o, x) {
      StaysIssued(m.lines, sess.family, link, o, x);
    }
  }

  lemma SetLiveOrder(m: Machine, n: Machine, p: nat, t: Token, sess: Session, parent: Option<Token>)
    requires Hist(m) && Todo(m.procs, p) == [] && t !in m.mintedTokens
    requires forall o :: Members(m.store.index, o) <= m.mintedTokens
    requires n == SetLive(m, p, t, sess, parent).(origins := n.origins)
    ensures OrderOk(n.procs, n.store.live) && SavesOk(n.store.index, n.procs, n.mintedTokens)
  {
    forall q ensures Orderly(Todo(n.procs, q), n.store.live.Keys) {
      if q == p {
        NoRemOrderly(SaveIndex(t, sess), n.store.live.Keys);
      } else {
        assert Todo(n.procs, q) == Todo(m.procs, q);
        forall c, x | c in Todo(m.procs, q) && c.RemIndex? && x in c.ts && x in n.store.live ensures x in m.store.live {
          assert CmdOk(c, m.lines, m.origins, m.mintedTokens);
        }
        OrderlyFewer(Todo(m.procs, q), m.store.live.Keys, n.store.live.Keys);
      }
    }
    forall q, o, x | Adds(n.procs, q, o, x) ensures (if q == p then x == t else Adds(m.procs, q, o, x) && x != t) && x !in Members(m.store.index, o) {
      if q != p { assert Adds(m.procs, q, o, x); }
    }
    forall q ensures Once(Todo(n.procs, q)) {
      if q != p { assert Todo(n.procs, q) == Todo(m.procs, q); }
    }
  }

  lemma SetLiveHist(m: Machine, n: Machine, p: nat, t: Token, sess: Session, parent: Option<Token>)
    requires Inv(m) && Hist(m) && Todo(m.procs, p) == [] && t !in m.mintedTokens
    requires n == SetLive(m, p, t, sess, parent).(origins := n.origins)
    requires m.origins.Keys <= n.origins.Keys && "" !in n.origins
    ensures Hist(n)
  {
    SetLiveSent(m, n, p, t, sess, parent);
    forall o ensures Members(m.store.index, o) <= m.mintedTokens {
      ListedMinted(m, o);
    }
    SetLiveOrder(m, n, p, t, sess, parent);
  }

  // ---- Every step ----

  /** Dropping the commands of p, or a request without any. */
  lemma QuietHist(m: Machine, m': Machine, p: nat)
    requires Hist(m) && Todo(m'.procs, p) == []
    requires forall q :: q != p ==> Todo(m'.procs, q) == Todo(m.procs, q)
    requires m'.lines == m.lines && m'.origins == m.origins && m'.mintedTokens == m.mintedTokens
    requires Fewer(m.store.live, m'.store.live) && Fewer(m.store.used, m'.store.used)
    requires forall o :: Members(m'.store.index, o) <= Members(m.store.index, o)
    ensures Hist(m')
  {
    PlainHist(m, m', p);
  }

  lemma FirstSaveHist(m: Machine, n: Machine, p: nat, t: Token, f: FamilyId, sess: Session)
    requires Inv(m) && Hist(m) && HasCode(m.procs, p) && t !in m.mintedTokens && f != ""
    requires n == SetLive(m, p, t, sess, None).(origins := n.origins) && n.origins.Keys == m.origins.Keys + {f}
    ensures Hist(n)
  {
    assert Todo(m.procs, p) == [];
    SetLiveHist(m, n, p, t, sess, None);
  }

  lemma FirstTokenHist(m: Machine, p: nat, t: Token, f: FamilyId)
    requires Inv(m) && Hist(m)
    ensures Hist(DoFirstToken(m, p, t, f))
  {
    var m' := DoFirstToken(m, p, t, f);
    if HasCode(m.procs, p) && m' != m {
      var g := m.procs[p].grant;
      if "offline_access" !in g.scopes {
        GiveUpHist(m, p);
      } else {
        FirstSaveHist(m, m', p, t, f, Session(g.user, g.client, g.scopes, g.authTime, f));
      }
    }
  }

  lemma NextTokenHist(m: Machine, p: nat, t: Token)
    requires Inv(m) && Hist(m)
    ensures Hist(DoNextToken(m, p, t))
  {
    var m' := DoNextToken(m, p, t);
    if m' != m {
      SetLiveHist(m, m', p, t, m.procs[p].sess, Some(m.procs[p].parent));
    }
  }

  lemma LiveMinted(m: Machine, t: Token)
    requires Inv(m) && t in m.store.live
    ensures t in m.mintedTokens && m.store.live[t].sess.family in m.origins
  {
    var f := m.store.live[t].sess.family;
    assert LiveOk(m.store.live, m.lines, t);
    assert At(m.lines, f, |m.lines[f]| - 1, t);
  }

  lemma DropOrderly(t: Token, sess: Session, live: set<Token>)
    requires t !in live
    ensures Orderly(DropIndex(t, sess), live) && Orderly([SetUsed(t, sess)] + DropIndex(t, sess), live)
  {
    assert DropIndex(t, sess)[1..] == [RemIndex(Family(sess.family), {t})];
    assert DropIndex(t, sess)[1..][1..] == [];
    assert Orderly(DropIndex(t, sess)[1..], live);
    assert ([SetUsed(t, sess)] + DropIndex(t, sess))[1..] == DropIndex(t, sess);
  }

  /** p goes on with a list of commands that adds to no index. */
  lemma NewTodo(m: Machine, m': Machine, p: nat, proc: Proc, todo: seq<Cmd>, live: map<Token, Entry>)
    requires Hist(m) && m' == m.(store := m.store.(live := live), procs := m.procs[p := proc])
    requires Todo(m'.procs, p) == todo && live.Keys <= m.store.live.Keys && Orderly(todo, live.Keys)
    requires forall c :: c in todo ==> !c.AddIndex? && CmdOk(c, m.lines, m.origins, m.mintedTokens)
    ensures Hist(m')
  {
    forall q | q != p ensures Todo(m'.procs, q) == Todo(m.procs, q) {
    }
    assert Once(todo);
    PlainHist(m, m', p);
  }

  lemma TakenHist(m: Machine, p: nat, t: Token, client: ClientId, requested: seq<Scope>)
    requires Hist(m) && p !in m.procs && t in m.store.live
    requires t in m.mintedTokens && m.store.live[t].sess.family in m.origins
    ensures Hist(DoTakeToken(m, p, t, client, requested))
  {
    var m', sess := DoTakeToken(m, p, t, client, requested), m.store.live[t].sess;
    var todo := [SetUsed(t, sess)] + DropIndex(t, sess);
    DropOrderly(t, sess, (m.store.live - {t}).Keys);
    NewTodo(m, m', p, m'.procs[p], todo, m.store.live - {t});
  }

  lemma TakeTokenHist(m: Machine, p: nat, t: Token, client: ClientId, requested: seq<Scope>)
    requires Inv(m) && Hist(m)
    ensures Hist(DoTakeToken(m, p, t, client, requested))
  {
    if p !in m.procs {
      if t in m.store.live {
        LiveMinted(m, t);
        TakenHist(m, p, t, client, requested);
      } else {
        NewTodo(m, DoTakeToken(m, p, t, client, requested), p, Missed(t), [], m.store.live);
      }
    }
  }

  lemma PeekedHist(m: Machine, p: nat, t: Token)
    requires Hist(m) && p in m.procs && m.procs[p] == Peeked(t) && t in m.store.live && t in m.mintedTokens
    ensures Hist(DoTakePeeked(m, p))
  {
    var todo := DropIndex(t, m.store.live[t].sess);
    DropOrderly(t, m.store.live[t].sess, (m.store.live - {t}).Keys);
    NewTodo(m, DoTakePeeked(m, p), p, Sending(todo), todo, m.store.live - {t});
  }

  lemma TakePeekedHist(m: Machine, p: nat)
    requires Inv(m) && Hist(m)
    ensures Hist(DoTakePeeked(m, p))
  {
    if p in m.procs && m.procs[p].Peeked? {
      var t := m.procs[p].t;
      if t in m.store.live {
        LiveMinted(m, t);
        PeekedHist(m, p, t);
      } else {
        QuietHist(m, DoTakePeeked(m, p), p);
      }
    }
  }

  lemma FamilyOrderly(s: Store, sess: Session, live: set<Token>)
    ensures Orderly(FamilyCommands(s, sess), live)
  {
    var ts := Members(s.index, Family(sess.family));
    var (del, rem, last) := (DelKeys(ts, {}), RemIndex(User(sess.user), ts), DelKeys({}, {Family(sess.family)}));
    var todo := FamilyCommands(s, sess);
    if ts == {} {
      assert todo == [last] && todo[1..] == [];
    } else {
      assert todo == [del, rem, last] && todo[1..] == [rem, last] && todo[1..][1..] == [last] && todo[1..][1..][1..] == [];
      assert Orderly([last], live - ts);
      assert Orderly([rem, last], live - ts);
    }
  }

  lemma ListedFamilyHist(m: Machine, p: nat, sess: Session)
    requires Hist(m) && p in m.procs && m.procs[p] == TombstoneRead(sess) && sess.family != ""
    requires Members(m.store.index, Family(sess.family)) <= m.mintedTokens
    ensures Hist(DoListFamily(m, p))
  {
    var todo := FamilyCommands(m.store, sess);
    FamilyOrderly(m.store, sess, m.store.live.Keys);
    NewTodo(m, DoListFamily(m, p), p, Sending(todo), todo, m.store.live);
  }

  lemma ListFamilyHist(m: Machine, p: nat)
    requires Inv(m) && Hist(m)
    ensures Hist(DoListFamily(m, p))
  {
    if p in m.procs && m.procs[p].TombstoneRead? {
      var sess := m.procs[p].sess;
      if sess.family == "" {
        QuietHist(m, DoListFamily(m, p), p);
      } else {
        ListedMinted(m, Family(sess.family));
        ListedFamilyHist(m, p, sess);
      }
    }
  }

  lemma ListUserHist(m: Machine, p: nat, u: UserId)
    requires Inv(m) && Hist(m)
    ensures Hist(DoListUser(m, p, u))
  {
    var m' := DoListUser(m, p, u);
    if m' != m {
      NoRemOrderly(Todo(m'.procs, p), m.store.live.Keys);
      PlainHist(m, m', p);
    }
  }

  lemma TakeCodeHist(m: Machine, p: nat, code: Code, client: ClientId)
    requires Hist(m)
    ensures Hist(DoTakeCode(m, p, code, client))
  {
    if p !in m.procs && code in m.codes {
      QuietHist(m, DoTakeCode(m, p, code, client), p);
    }
  }

  lemma ReadTombstoneHist(m: Machine, p: nat)
    requires Hist(m)
    ensures Hist(DoReadTombstone(m, p))
  {
    if p in m.procs && m.procs[p].Missed? {
      QuietHist(m, DoReadTombstone(m, p), p);
    }
  }

  lemma PeekHist(m: Machine, p: nat, t: Token, client: ClientId)
    requires Hist(m)
    ensures Hist(DoPeek(m, p, t, client))
  {
    if p !in m.procs {
      QuietHist(m, DoPeek(m, p, t, client), p);
    }
  }

  lemma GiveUpHist(m: Machine, p: nat)
    requires Hist(m)
    ensures Hist(DoGiveUp(m, p))
  {
    QuietHist(m, DoGiveUp(m, p), p);
  }

  lemma StepHist(m: Machine, a: Act)
    requires Inv(m) && Hist(m)
    ensures Hist(Step(m, a))
  {
    match a
    case FirstToken(p, t, f) => FirstTokenHist(m, p, t, f);
    case NextToken(p, t) => NextTokenHist(m, p, t);
    case TakeToken(p, t, client, requested) => TakeTokenHist(m, p, t, client, requested);
    case TakePeeked(p) => TakePeekedHist(m, p);
    case ListFamily(p) => ListFamilyHist(m, p);
    case ListUser(p, u) => ListUserHist(m, p, u);
    case Send(p) => SendHist(m, p);
    case TakeCode(p, code, client) => TakeCodeHist(m, p, code, client);
    case ReadTombstone(p) => ReadTombstoneHist(m, p);
    case Peek(p, t, client) => PeekHist(m, p, t, client);
    case GiveUp(p) => GiveUpHist(m, p);
    case Consent(_, _, _, _, _) =>
    case Pass(d) => PassHist(m, d);
  }

  lemma PassHist(m: Machine, d: nat)
    requires Hist(m)
    ensures Hist(DoPass(m, d))
  {
    var m' := DoPass(m, d);
    forall q ensures Orderly(Todo(m'.procs, q), m'.store.live.Keys) {
      OrderlyFewer(Todo(m.procs, q), m.store.live.Keys, m'.store.live.Keys);
    }
    forall o, t | t in Members(m'.store.index, o) ensures t in Members(m.store.index, o) {
    }
  }

  lemma {:induction false} RunHist(m: Machine, acts: seq<Act>)
    requires Inv(m) && Hist(m)
    ensures Inv(Run(m, acts)) && Hist(Run(m, acts))
    decreases |acts|
  {
    if acts != [] {
      StepInv(m, acts[0]);
      StepHist(m, acts[0]);
      RunHist(Step(m, acts[0]), acts[1..]);
    }
  }

  lemma StartHist()
    ensures Inv(Start) && Hist(Start)
  {
  }

  /** Every state that some run of single commands reaches. */
  lemma Reachable(acts: seq<Act>)
    ensures Inv(Run(Start, acts)) && Hist(Run(Start, acts))
  {
    StartHist();
    RunHist(Start, acts);
  }
}
