/** What holds in every interleaving of code exchanges, refreshes, revocations and expiries. */
module GrantTheorems {
  import opened Names
  import opened AuthCodes
  import opened RefreshKeys
  import opened Scopes
  import opened GrantChains

  // ---- What single steps do, key by key ----

  /** A code is stored, for five minutes, exactly for scopes that are all allowed. */
  lemma ConsentsExactly(m: Machine, code: Code, user: UserId, client: ClientId, scopes: seq<Scope>, allowed: set<Scope>)
    requires code !in m.mintedCodes
    ensures var m' := Step(m, Consent(code, user, client, scopes, allowed));
            m'.codes == if forall s :: s in scopes ==> s in allowed
                        then m.codes[code := CodeEntry(Grant(user, client, scopes, m.store.now, allowed), m.store.now + 300)]
                        else m.codes
  {
  }

  /** Presenting a code spends it, whoever presents it; only the client it was issued to holds it then. */
  lemma TakesCodeExactly(m: Machine, p: nat, code: Code, client: ClientId)
    requires p !in m.procs && code in m.codes
    ensures var (m', g) := (Step(m, TakeCode(p, code, client)), m.codes[code].sess);
            && m'.codes == m.codes - {code} && m'.store == m.store
            && (p in m'.procs <==> g.client == client)
            && (p in m'.procs ==> m'.procs[p] == CodeTaken(code, g))
            && (forall q :: q != p ==> (q in m'.procs <==> q in m.procs) && (q in m.procs ==> m'.procs[q] == m.procs[q]))
  {
  }

  /** The first token of a family, if the user agreed to offline access. */
  lemma FirstTokenExactly(m: Machine, p: nat, t: Token, f: FamilyId)
    requires HasCode(m.procs, p) && t !in m.mintedTokens && f !in m.origins && f != ""
    ensures var (m', g) := (Step(m, FirstToken(p, t, f)), m.procs[p].grant);
            if "offline_access" in g.scopes
            then
              && m'.store == m.store.(live := m.store.live[t := Entry(Session(g.user, g.client, g.scopes, g.authTime, f), m.store.now + 2592000)])
              && p in m'.procs && m'.procs[p] == Sending([AddIndex(User(g.user), t), ExpireIndex(User(g.user)),
                                                          AddIndex(Family(f), t), ExpireIndex(Family(f))])
            else m'.store == m.store && p !in m'.procs
  {
  }

  /** Presenting a live token spends it, whoever presents it, and leaves its tombstone to be set and
      its index entries to be removed; only its own client goes on, with narrowed scopes. */
  lemma TakesTokenExactly(m: Machine, p: nat, t: Token, client: ClientId, requested: seq<Scope>)
    requires p !in m.procs
    ensures var m' := Step(m, TakeToken(p, t, client, requested));
            && p in m'.procs
            && if t !in m.store.live then m'.store == m.store && m'.procs[p] == Missed(t)
               else
                 var sess := m.store.live[t].sess;
                 var todo := [SetUsed(t, sess), RemIndex(User(sess.user), {t}), RemIndex(Family(sess.family), {t})];
                 && m'.store == m.store.(live := m.store.live - {t})
                 && m'.procs[p] ==
                      if sess.client == client
                      then TokenTaken(t, Session(sess.user, sess.client, Narrow(sess.scopes, requested), sess.authTime, sess.family), todo)
                      else Sending(todo)
  {
  }

  lemma NextTokenExactly(m: Machine, p: nat, t: Token)
    requires HasToken(m.procs, p) && t !in m.mintedTokens
    ensures var (m', sess) := (Step(m, NextToken(p, t)), m.procs[p].sess);
            if m.procs[p].todo != [] then m' == m
            else
              && m'.store == m.store.(live := m.store.live[t := Entry(sess, m.store.now + 2592000)])
              && p in m'.procs && m'.procs[p] == Sending([AddIndex(User(sess.user), t), ExpireIndex(User(sess.user)),
                                                          AddIndex(Family(sess.family), t), ExpireIndex(Family(sess.family))])
  {
  }

  /** Only the client of a live token can have it revoked, and by then it may be gone. */
  lemma PeeksExactly(m: Machine, p: nat, q: nat, t: Token, client: ClientId)
    requires p !in m.procs && q in m.procs && m.procs[q] == Peeked(t)
    ensures var m' := Step(m, Peek(p, t, client));
            && m'.store == m.store
            && (p in m'.procs <==> t in m.store.live && m.store.live[t].sess.client == client)
            && (p in m'.procs ==> m'.procs[p] == Peeked(t))
    ensures var m' := Step(m, TakePeeked(q));
            && m'.store == m.store.(live := m.store.live - {t})
            && (q in m'.procs <==> t in m.store.live)
            && (q in m'.procs ==>
                  var sess := m.store.live[t].sess;
                  m'.procs[q] == Sending([RemIndex(User(sess.user), {t}), RemIndex(Family(sess.family), {t})]))
  {
    if t !in m.store.live {
      assert m.store.live - {t} == m.store.live;
    }
  }

  function LiveOf(m: Machine, f: FamilyId): set<Token> {
    set t | t in m.store.live && m.store.live[t].sess.family == f
  }

  function FlightsOf(m: Machine, f: FamilyId): set<nat> {
    set p | p in m.procs && InFlight(m.procs, p, f)
  }

  lemma {:induction false} RunInv(m: Machine, acts: seq<Act>)
    requires Inv(m)
    ensures Inv(Run(m, acts))
    decreases |acts|
  {
    if acts != [] {
      StepInv(m, acts[0]);
      RunInv(Step(m, acts[0]), acts[1..]);
    }
  }

  lemma AtMostOneHolder(m: Machine, f: FamilyId)
    requires Inv(m)
    ensures |LiveOf(m, f)| + |FlightsOf(m, f)| <= 1
  {
    var live, procs, lines := m.store.live, m.procs, m.lines;
    if p :| p in FlightsOf(m, f) {
      FlightHolds(live, procs, lines, p);
      assert LiveOf(m, f) == {} && FlightsOf(m, f) == {p};
    } else if t :| t in LiveOf(m, f) {
      assert LiveOk(live, lines, t);
      forall x | x in LiveOf(m, f) ensures x == t {
        assert LiveOk(live, lines, x);
      }
      assert LiveOf(m, f) == {t} && FlightsOf(m, f) == {};
    }
  }

  /** In every interleaving a family's live tokens and its exchanges in flight number at most
      one together, so a grant chain never forks. */
  lemma NeverForks(acts: seq<Act>, f: FamilyId)
    ensures |LiveOf(Run(Start, acts), f)| + |FlightsOf(Run(Start, acts), f)| <= 1
  {
    RunInv(Start, acts);
    AtMostOneHolder(Run(Start, acts), f);
  }

  /** No token is ever exchanged twice: two tokens with the same parent are the same token. */
  lemma NoTwoChildren(acts: seq<Act>, f: FamilyId, g: FamilyId, i: nat, j: nat)
    requires var lines := Run(Start, acts).lines;
             && f in lines && g in lines && i < |lines[f]| && j < |lines[g]|
             && lines[f][i].parent.Some? && lines[f][i].parent == lines[g][j].parent
    ensures f == g && i == j
  {
    RunInv(Start, acts);
    var m := Run(Start, acts);
    assert LineOk(m.lines[f], f, m.origins[f].grant) && LineOk(m.lines[g], g, m.origins[g].grant);
    assert i > 0 && j > 0 && Follows(m.lines[f], i) && Follows(m.lines[g], j);
    assert At(m.lines, f, i - 1, m.lines[f][i].parent.value) && At(m.lines, g, j - 1, m.lines[f][i].parent.value);
  }

  /** A code starts at most one family. */
  lemma OneFamilyPerCode(acts: seq<Act>, f: FamilyId, g: FamilyId)
    requires var origins := Run(Start, acts).origins;
             f in origins && g in origins && origins[f].code == origins[g].code
    ensures f == g
  {
    RunInv(Start, acts);
  }

  lemma {:induction false} LineShrinks(line: seq<Link>, f: FamilyId, g: Grant, i: nat, j: nat)
    requires LineOk(line, f, g) && i <= j < |line|
    ensures line[j].sess == line[i].sess.(scopes := line[j].sess.scopes)
    ensures forall s :: s in line[j].sess.scopes ==> s in line[i].sess.scopes
    decreases j
  {
    if i < j {
      LineShrinks(line, f, g, i, j - 1);
      assert Follows(line, j);
    }
  }

  /** From consent through any number of refreshes a family keeps its user, client and
      auth_time, its scopes only shrink, and all of them were allowed at consent. */
  lemma LineageKept(acts: seq<Act>, f: FamilyId, i: nat, j: nat)
    requires f in Run(Start, acts).lines && i <= j < |Run(Start, acts).lines[f]|
    ensures f in Run(Start, acts).origins
    ensures var m := Run(Start, acts);
            var (line, g) := (m.lines[f], m.origins[f].grant);
            && (line[j].sess.user, line[j].sess.client, line[j].sess.authTime, line[j].sess.family)
               == (g.user, g.client, g.authTime, f)
            && (forall s :: s in line[j].sess.scopes ==> s in line[i].sess.scopes && s in g.scopes && s in g.allowed)
  {
    RunInv(Start, acts);
    var m := Run(Start, acts);
    LineFromGrant(m.lines[f], f, m.origins[f].grant, i, j);
    assert Consented(m.origins[f].grant);
  }

  lemma LineFromGrant(line: seq<Link>, f: FamilyId, g: Grant, i: nat, j: nat)
    requires LineOk(line, f, g) && i <= j < |line|
    ensures (line[j].sess.user, line[j].sess.client, line[j].sess.authTime, line[j].sess.family)
            == (g.user, g.client, g.authTime, f)
    ensures forall s :: s in line[j].sess.scopes ==> s in line[i].sess.scopes && s in g.scopes
  {
    LineShrinks(line, f, g, i, j);
    LineShrinks(line, f, g, 0, j);
  }

  /** A live token is the last one of its family's line, with that line's session. */
  lemma LiveIsLatest(acts: seq<Act>, t: Token)
    requires t in Run(Start, acts).store.live
    ensures var m := Run(Start, acts);
            var sess := m.store.live[t].sess;
            && sess.family in m.lines && m.lines[sess.family] != []
            && var last := m.lines[sess.family][|m.lines[sess.family]| - 1];
               last.token == t && last.sess == sess
  {
    RunInv(Start, acts);
    var m := Run(Start, acts);
    assert LiveOk(m.store.live, m.lines, t);
  }

  // ---- The end of a family ----

  /** Family f has been started and nothing holds it. */
  ghost predicate Over(m: Machine, f: FamilyId) {
    && f in m.origins
    && (forall t :: t in m.store.live ==> m.store.live[t].sess.family != f)
    && (forall p :: !InFlight(m.procs, p, f))
  }

  lemma OverStep(m: Machine, a: Act, f: FamilyId)
    requires Over(m, f)
    ensures Over(Step(m, a), f)
  {
    var m' := Step(m, a);
    if Quiet(a) {
      QuietIsCalmer(m, a);
    }
    forall q ensures !InFlight(m'.procs, q, f) {
      assert !InFlight(m.procs, q, f);
    }
    forall t | t in m'.store.live ensures m'.store.live[t].sess.family != f {
      if a.NextToken? {
        assert !InFlight(m.procs, a.p, f);
      }
    }
  }

  /** A started family without live token or exchange in flight never has either again. */
  lemma {:induction false} OverForGood(m: Machine, acts: seq<Act>, f: FamilyId)
    requires Over(m, f)
    ensures Over(Run(m, acts), f)
    decreases |acts|
  {
    if acts != [] {
      OverStep(m, acts[0], f);
      OverForGood(Step(m, acts[0]), acts[1..], f);
    }
  }

  /** There is always a token not in ts. */
  lemma {:induction false} Unused(ts: set<Token>) returns (n: nat)
    ensures forall t :: t in ts ==> |t| < n
  {
    n := 0;
    if t :| t in ts {
      var k := Unused(ts - {t});
      n := if |t| < k then k else |t| + 1;
    }
  }

  /** An exchange in flight can always finish: send what is left, then save a new token. */
  lemma {:induction false} FlightCanLand(m: Machine, p: nat) returns (acts: seq<Act>)
    requires HasToken(m.procs, p)
    ensures LiveOf(Run(m, acts), m.procs[p].sess.family) != {}
    decreases |m.procs[p].todo|
  {
    if m.procs[p].todo == [] {
      var n := Unused(m.mintedTokens);
      var t: Token := seq(n, _ => 'a');
      var m' := DoNextToken(m, p, t);
      assert Run(m', []) == m';
      acts := [NextToken(p, t)];
      assert t in LiveOf(m', m.procs[p].sess.family);
    } else {
      var rest := FlightCanLand(DoSend(m, p), p);
      acts := [Send(p)] + rest;
      assert acts[1..] == rest;
    }
  }
}
