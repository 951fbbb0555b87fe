/** Concurrent code and refresh-token exchanges (oidc/service.go, oidc/authcode.go), one
    Redis command a step, over the keys of RefreshKeys. */
module GrantChains {
  import opened Names
  import opened AuthCodes
  import opened RefreshKeys
  import opened Scopes

  /** The commands a client still has to send; none of them creates a live token. */
  datatype Cmd =
    | SetUsed(t: Token, sess: Session)
    | AddIndex(o: Owner, t: Token)
    | ExpireIndex(o: Owner)
    | RemIndex(o: Owner, ts: set<Token>)
    | DelKeys(ts: set<Token>, os: set<Owner>)

  function Exec(s: Store, c: Cmd): Store {
    match c
    case SetUsed(t, sess) => s.(used := s.used[t := Entry(sess, s.now + TTL)])
    case AddIndex(o, t) => s.(index := SAdd(s.index, o, t))
    case ExpireIndex(o) => s.(index := Expire(s.index, s.now, o))
    case RemIndex(o, ts) => s.(index := SRem(s.index, o, ts))
    case DelKeys(ts, os) => s.(live := s.live - ts, index := s.index - os)
  }

  /** What the user consented to, and the scopes the client was allowed at that moment. */
  datatype Grant = Grant(user: UserId, client: ClientId, scopes: seq<Scope>, authTime: nat, allowed: set<Scope>)

  /** Where one request is between two commands. */
  datatype Proc =
    | CodeTaken(code: Code, grant: Grant)
    | TokenTaken(parent: Token, sess: Session, todo: seq<Cmd>)
    | Sending(todo: seq<Cmd>)
    | Missed(t: Token)
    | TombstoneRead(sess: Session)
    | Peeked(t: Token)

  /** One token of a family, with the token it was exchanged for. */
  datatype Link = Link(token: Token, parent: Option<Token>, sess: Session)

  datatype Origin = Origin(code: Code, grant: Grant)

  /** The last four fields are history: nothing in the protocol reads them except to tell
      whether a random name is new. */
  datatype Machine = Machine(
    store: Store,
    codes: map<Code, CodeEntry<Grant>>,
    procs: map<nat, Proc>,
    mintedCodes: set<Code>,
    mintedTokens: set<Token>,
    origins: map<FamilyId, Origin>,
    lines: map<FamilyId, seq<Link>>)

  const Start := Machine(Empty, map[], map[], {}, {}, map[], map[])

  datatype Act =
    | Consent(code: Code, user: UserId, client: ClientId, scopes: seq<Scope>, allowed: set<Scope>)
    | TakeCode(p: nat, code: Code, client: ClientId)
    | FirstToken(p: nat, t: Token, f: FamilyId)
    | TakeToken(p: nat, t: Token, client: ClientId, requested: seq<Scope>)
    | NextToken(p: nat, t: Token)
    | ReadTombstone(p: nat)
    | ListFamily(p: nat)
    | Peek(p: nat, t: Token, client: ClientId)
    | TakePeeked(p: nat)
    | ListUser(p: nat, u: UserId)
    | Send(p: nat)
    | GiveUp(p: nat)
    | Pass(seconds: nat)

  function SaveIndex(t: Token, sess: Session): seq<Cmd> {
    [AddIndex(User(sess.user), t), ExpireIndex(User(sess.user)),
     AddIndex(Family(sess.family), t), ExpireIndex(Family(sess.family))]
  }

  function DropIndex(t: Token, sess: Session): seq<Cmd> {
    [RemIndex(User(sess.user), {t}), RemIndex(Family(sess.family), {t})]
  }

  function SetLive(m: Machine, p: nat, t: Token, sess: Session, parent: Option<Token>): Machine {
    m.(store := m.store.(live := m.store.live[t := Entry(sess, m.store.now + TTL)]),
       procs := m.procs[p := Sending(SaveIndex(t, sess))],
       mintedTokens := m.mintedTokens + {t},
       lines := Grown(m.lines, sess.family, Link(t, parent, sess)))
  }

  function Grown(lines: map<FamilyId, seq<Link>>, f: FamilyId, link: Link): map<FamilyId, seq<Link>> {
    lines[f := (if f in lines then lines[f] else []) + [link]]
  }

  // Each action below leaves the machine alone when it is not possible.

  function DoConsent(m: Machine, code: Code, user: UserId, client: ClientId, scopes: seq<Scope>, allowed: set<Scope>): Machine {
    if code in m.mintedCodes || exists s :: s in scopes && s !in allowed then m
    else
      var g := Grant(user, client, scopes, m.store.now, allowed);
      m.(codes := m.codes[code := CodeEntry(g, m.store.now + CODE_TTL)], mintedCodes := m.mintedCodes + {code})
  }

  function DoTakeCode(m: Machine, p: nat, code: Code, client: ClientId): Machine {
    if p in m.procs || code !in m.codes then m
    else
      var taken := m.(codes := m.codes - {code});
      if m.codes[code].sess.client != client then taken
      else taken.(procs := m.procs[p := CodeTaken(code, m.codes[code].sess)])
  }

  function DoFirstToken(m: Machine, p: nat, t: Token, f: FamilyId): Machine {
    if p !in m.procs || !m.procs[p].CodeTaken? || t in m.mintedTokens || f in m.origins || f == "" then m
    else
      var g := m.procs[p].grant;
      if "offline_access" !in g.scopes then m.(procs := m.procs - {p})
      else SetLive(m, p, t, Session(g.user, g.client, g.scopes, g.authTime, f), None)
           .(origins := m.origins[f := Origin(m.procs[p].code, g)])
  }

  function DoTakeToken(m: Machine, p: nat, t: Token, client: ClientId, requested: seq<Scope>): Machine {
    if p in m.procs then m
    else if t !in m.store.live then m.(procs := m.procs[p := Missed(t)])
    else
      var sess := m.store.live[t].sess;
      var todo := [SetUsed(t, sess)] + DropIndex(t, sess);
      m.(store := m.store.(live := m.store.live - {t}),
         procs := m.procs[p := if sess.client != client then Sending(todo)
                               else TokenTaken(t, sess.(scopes := Narrow(sess.scopes, requested)), todo)])
  }

  function DoNextToken(m: Machine, p: nat, t: Token): Machine {
    if p !in m.procs || !m.procs[p].TokenTaken? || m.procs[p].todo != [] || t in m.mintedTokens then m
    else SetLive(m, p, t, m.procs[p].sess, Some(m.procs[p].parent))
  }

  function DoReadTombstone(m: Machine, p: nat): Machine {
    if p !in m.procs || !m.procs[p].Missed? then m
    else if m.procs[p].t !in m.store.used then m.(procs := m.procs - {p})
    else m.(procs := m.procs[p := TombstoneRead(m.store.used[m.procs[p].t].sess)])
  }

  function DoListFamily(m: Machine, p: nat): Machine {
    if p !in m.procs || !m.procs[p].TombstoneRead? then m
    else
      var sess := m.procs[p].sess;
      var ts := Members(m.store.index, Family(sess.family));
      if sess.family == "" then m.(procs := m.procs - {p})
      else m.(procs := m.procs[p := Sending(
          (if ts == {} then [] else [DelKeys(ts, {}), RemIndex(User(sess.user), ts)])
          + [DelKeys({}, {Family(sess.family)})])])
  }

  function DoPeek(m: Machine, p: nat, t: Token, client: ClientId): Machine {
    if p in m.procs || t !in m.store.live || m.store.live[t].sess.client != client then m
    else m.(procs := m.procs[p := Peeked(t)])
  }

  function DoTakePeeked(m: Machine, p: nat): Machine {
    if p !in m.procs || !m.procs[p].Peeked? then m
    else
      var t := m.procs[p].t;
      if t !in m.store.live then m.(procs := m.procs - {p})
      else m.(store := m.store.(live := m.store.live - {t}),
              procs := m.procs[p := Sending(DropIndex(t, m.store.live[t].sess))])
  }

  function DoListUser(m: Machine, p: nat, u: UserId): Machine {
    if p in m.procs then m
    else m.(procs := m.procs[p := Sending([DelKeys(Members(m.store.index, User(u)), {User(u)})])])
  }

  function DoSend(m: Machine, p: nat): Machine {
    if p !in m.procs || !(m.procs[p].TokenTaken? || m.procs[p].Sending?) || m.procs[p].todo == [] then m
    else
      var proc := m.procs[p];
      m.(store := Exec(m.store, proc.todo[0]), procs := m.procs[p := proc.(todo := proc.todo[1..])])
  }

  function DoGiveUp(m: Machine, p: nat): Machine {
    m.(procs := m.procs - {p})
  }

  function DoPass(m: Machine, d: nat): Machine {
    m.(store := Wait(m.store, d),
       codes := map c | c in m.codes && m.store.now + d < m.codes[c].exp :: m.codes[c])
  }

  function Step(m: Machine, a: Act): Machine {
    match a
    case Consent(code, user, client, scopes, allowed) => DoConsent(m, code, user, client, scopes, allowed)
    case TakeCode(p, code, client) => DoTakeCode(m, p, code, client)
    case FirstToken(p, t, f) => DoFirstToken(m, p, t, f)
    case TakeToken(p, t, client, requested) => DoTakeToken(m, p, t, client, requested)
    case NextToken(p, t) => DoNextToken(m, p, t)
    case ReadTombstone(p) => DoReadTombstone(m, p)
    case ListFamily(p) => DoListFamily(m, p)
    case Peek(p, t, client) => DoPeek(m, p, t, client)
    case TakePeeked(p) => DoTakePeeked(m, p)
    case ListUser(p, u) => DoListUser(m, p, u)
    case Send(p) => DoSend(m, p)
    case GiveUp(p) => DoGiveUp(m, p)
    case Pass(d) => DoPass(m, d)
  }

  function Run(m: Machine, acts: seq<Act>): Machine
    decreases |acts|
  {
    if acts == [] then m else Run(Step(m, acts[0]), acts[1..])
  }

  // ---- What every step keeps ----

  predicate HasCode(procs: map<nat, Proc>, p: nat) {
    p in procs && procs[p].CodeTaken?
  }

  predicate HasToken(procs: map<nat, Proc>, p: nat) {
    p in procs && procs[p].TokenTaken?
  }

  /** The exchange in p has consumed a token of family f and not yet saved the next one. */
  predicate InFlight(procs: map<nat, Proc>, p: nat, f: FamilyId) {
    HasToken(procs, p) && procs[p].sess.family == f
  }

  predicate Extends(child: Session, parent: Session) {
    && child == parent.(scopes := child.scopes)
    && forall s :: s in child.scopes ==> s in parent.scopes
  }

  /** Link i was exchanged for link i - 1. */
  predicate Follows(line: seq<Link>, i: int)
    requires 0 < i < |line|
  {
    line[i].parent == Some(line[i - 1].token) && Extends(line[i].sess, line[i - 1].sess)
  }

  predicate LineOk(line: seq<Link>, f: FamilyId, g: Grant) {
    && line != []
    && line[0].parent == None
    && line[0].sess == Session(g.user, g.client, g.scopes, g.authTime, f)
    && forall i :: 0 < i < |line| ==> Follows(line, i)
  }

  predicate Consented(g: Grant) {
    forall s :: s in g.scopes ==> s in g.allowed
  }

  /** A code is in the store, or held by one exchange, or has started one family, or is gone. */
  ghost predicate CodesOk(codes: map<Code, CodeEntry<Grant>>, minted: set<Code>, procs: map<nat, Proc>, origins: map<FamilyId, Origin>) {
    && (forall c :: c in codes ==> c in minted && Consented(codes[c].sess))
    && (forall p :: HasCode(procs, p) ==>
         procs[p].code in minted && procs[p].code !in codes && Consented(procs[p].grant))
    && (forall p, q :: HasCode(procs, p) && HasCode(procs, q) && procs[p].code == procs[q].code ==> p == q)
    && (forall f :: f in origins ==>
         origins[f].code in minted && origins[f].code !in codes && Consented(origins[f].grant))
    && (forall f, p :: f in origins && HasCode(procs, p) ==> procs[p].code != origins[f].code)
    && (forall f, g :: f in origins && g in origins && origins[f].code == origins[g].code ==> f == g)
  }

  predicate At(lines: map<FamilyId, seq<Link>>, f: FamilyId, i: int, t: Token) {
    f in lines && 0 <= i < |lines[f]| && lines[f][i].token == t
  }

  ghost predicate LinesOk(lines: map<FamilyId, seq<Link>>, origins: map<FamilyId, Origin>, minted: set<Token>) {
    && lines.Keys == origins.Keys
    && (forall f :: f in lines ==> LineOk(lines[f], f, origins[f].grant))
    && (forall f, i, t :: At(lines, f, i, t) ==> t in minted)
    && (forall f, g, i, j, t :: At(lines, f, i, t) && At(lines, g, j, t) ==> f == g && i == j)
  }

  predicate IsTip(lines: map<FamilyId, seq<Link>>, t: Token, f: FamilyId) {
    f in lines && lines[f] != [] && lines[f][|lines[f]| - 1].token == t
  }

  ghost predicate LiveOk(live: map<Token, Entry>, lines: map<FamilyId, seq<Link>>, t: Token)
    requires t in live
  {
    var sess := live[t].sess;
    IsTip(lines, t, sess.family) && lines[sess.family][|lines[sess.family]| - 1].sess == sess
  }

  ghost predicate FlightOk(live: map<Token, Entry>, procs: map<nat, Proc>, lines: map<FamilyId, seq<Link>>, p: nat)
    requires HasToken(procs, p)
  {
    var sess := procs[p].sess;
    && IsTip(lines, procs[p].parent, sess.family) && procs[p].parent !in live
    && Extends(sess, lines[sess.family][|lines[sess.family]| - 1].sess)
  }

  /** A live token is the last of its family's line, and so is the parent of an exchange in
      flight; the two exclude each other. */
  ghost predicate TipsOk(live: map<Token, Entry>, procs: map<nat, Proc>, lines: map<FamilyId, seq<Link>>) {
    && (forall t :: t in live ==> LiveOk(live, lines, t))
    && (forall p :: HasToken(procs, p) ==> FlightOk(live, procs, lines, p))
    && (forall p, q, f :: InFlight(procs, p, f) && InFlight(procs, q, f) ==> p == q)
  }

  ghost predicate Inv(m: Machine) {
    && CodesOk(m.codes, m.mintedCodes, m.procs, m.origins)
    && LinesOk(m.lines, m.origins, m.mintedTokens)
    && TipsOk(m.store.live, m.procs, m.lines)
  }

  // ---- Steps that only take things away ----

  ghost predicate Fewer<K, V>(m: map<K, V>, m': map<K, V>) {
    forall k :: k in m' ==> k in m && m'[k] == m[k]
  }

  ghost predicate NoNewCodes(procs: map<nat, Proc>, procs': map<nat, Proc>) {
    forall p :: HasCode(procs', p) ==> HasCode(procs, p) && procs'[p] == procs[p]
  }

  ghost predicate NoNewTokens(procs: map<nat, Proc>, procs': map<nat, Proc>) {
    forall p :: HasToken(procs', p) ==>
      HasToken(procs, p) && procs'[p].parent == procs[p].parent && procs'[p].sess == procs[p].sess
  }

  lemma FewerCodes(codes: map<Code, CodeEntry<Grant>>, codes': map<Code, CodeEntry<Grant>>, minted: set<Code>,
                   procs: map<nat, Proc>, procs': map<nat, Proc>, origins: map<FamilyId, Origin>)
    requires CodesOk(codes, minted, procs, origins) && Fewer(codes, codes') && NoNewCodes(procs, procs')
    ensures CodesOk(codes', minted, procs', origins)
  {
  }

  lemma FewerTips(live: map<Token, Entry>, live': map<Token, Entry>, procs: map<nat, Proc>, procs': map<nat, Proc>,
                  lines: map<FamilyId, seq<Link>>)
    requires TipsOk(live, procs, lines) && Fewer(live, live') && NoNewTokens(procs, procs')
    ensures TipsOk(live', procs', lines)
  {
    forall t | t in live' ensures LiveOk(live', lines, t) {
      assert LiveOk(live, lines, t);
    }
    forall p | HasToken(procs', p) ensures FlightOk(live', procs', lines, p) {
      assert FlightOk(live, procs, lines, p);
    }
    forall p, q, f | InFlight(procs', p, f) && InFlight(procs', q, f) ensures p == q {
      assert InFlight(procs, p, f) && InFlight(procs, q, f);
    }
  }

  /** m' has no code, live token or claim that m did not have. */
  ghost predicate Calmer(m: Machine, m': Machine) {
    && m'.mintedCodes == m.mintedCodes && m'.mintedTokens == m.mintedTokens
    && m'.origins == m.origins && m'.lines == m.lines
    && Fewer(m.codes, m'.codes) && Fewer(m.store.live, m'.store.live)
    && NoNewCodes(m.procs, m'.procs) && NoNewTokens(m.procs, m'.procs)
  }

  lemma CalmerInv(m: Machine, m': Machine)
    requires Inv(m) && Calmer(m, m')
    ensures Inv(m')
  {
    FewerCodes(m.codes, m'.codes, m.mintedCodes, m.procs, m'.procs, m.origins);
    FewerTips(m.store.live, m'.store.live, m.procs, m'.procs, m.lines);
  }

  predicate Quiet(a: Act) {
    !a.Consent? && !a.TakeCode? && !a.FirstToken? && !a.TakeToken? && !a.NextToken?
  }

  lemma SendIsCalmer(m: Machine, p: nat)
    ensures Calmer(m, DoSend(m, p))
  {
  }

  lemma TakePeekedIsCalmer(m: Machine, p: nat)
    ensures Calmer(m, DoTakePeeked(m, p))
  {
  }

  lemma ListingIsCalmer(m: Machine, p: nat, u: UserId)
    ensures Calmer(m, DoListFamily(m, p)) && Calmer(m, DoListUser(m, p, u))
  {
  }

  lemma ReadTombstoneIsCalmer(m: Machine, p: nat)
    ensures Calmer(m, DoReadTombstone(m, p))
  {
  }

  lemma PeekIsCalmer(m: Machine, p: nat, t: Token, client: ClientId)
    ensures Calmer(m, DoPeek(m, p, t, client))
  {
  }

  lemma GiveUpIsCalmer(m: Machine, p: nat)
    ensures Calmer(m, DoGiveUp(m, p))
  {
  }

  lemma PassIsCalmer(m: Machine, d: nat)
    ensures Calmer(m, DoPass(m, d))
  {
  }

  lemma QuietIsCalmer(m: Machine, a: Act)
    requires Quiet(a)
    ensures Calmer(m, Step(m, a))
  {
    match a
    case Send(p) => SendIsCalmer(m, p);
    case TakePeeked(p) => TakePeekedIsCalmer(m, p);
    case ListFamily(p) => ListingIsCalmer(m, p, "");
    case ListUser(p, u) => ListingIsCalmer(m, p, u);
    case Pass(d) => PassIsCalmer(m, d);
    case ReadTombstone(p) => ReadTombstoneIsCalmer(m, p);
    case Peek(p, t, client) => PeekIsCalmer(m, p, t, client);
    case GiveUp(p) => GiveUpIsCalmer(m, p);
  }

  // ---- Steps that take a code or a token ----

  lemma ConsentInv(m: Machine, code: Code, user: UserId, client: ClientId, scopes: seq<Scope>, allowed: set<Scope>)
    requires Inv(m)
    ensures Inv(DoConsent(m, code, user, client, scopes, allowed))
  {
  }

  lemma HeldCode(codes: map<Code, CodeEntry<Grant>>, minted: set<Code>, procs: map<nat, Proc>, origins: map<FamilyId, Origin>,
                 p: nat, code: Code)
    requires CodesOk(codes, minted, procs, origins) && code in codes && p !in procs
    ensures CodesOk(codes - {code}, minted, procs[p := CodeTaken(code, codes[code].sess)], origins)
  {
  }

  lemma TakeCodeInv(m: Machine, p: nat, code: Code, client: ClientId)
    requires Inv(m)
    ensures Inv(DoTakeCode(m, p, code, client))
  {
    if p !in m.procs && code in m.codes {
      var procs' := m.procs[p := CodeTaken(code, m.codes[code].sess)];
      HeldCode(m.codes, m.mintedCodes, m.procs, m.origins, p, code);
      FewerCodes(m.codes, m.codes - {code}, m.mintedCodes, m.procs, m.procs, m.origins);
      FewerTips(m.store.live, m.store.live, m.procs, procs', m.lines);
    }
  }

  /** An exchange in flight is the only holder of its family. */
  lemma FlightHolds(live: map<Token, Entry>, procs: map<nat, Proc>, lines: map<FamilyId, seq<Link>>, p: nat)
    requires TipsOk(live, procs, lines) && HasToken(procs, p)
    ensures forall x :: x in live ==> live[x].sess.family != procs[p].sess.family
    ensures forall q :: InFlight(procs, q, procs[p].sess.family) ==> q == p
  {
    assert FlightOk(live, procs, lines, p) && InFlight(procs, p, procs[p].sess.family);
    forall x | x in live ensures live[x].sess.family != procs[p].sess.family {
      assert LiveOk(live, lines, x);
    }
  }

  /** The claim of a live token: its key is gone and p alone holds the family. */
  lemma ClaimTips(live: map<Token, Entry>, procs: map<nat, Proc>, lines: map<FamilyId, seq<Link>>,
                  p: nat, t: Token, sess: Session, todo: seq<Cmd>)
    requires TipsOk(live, procs, lines) && t in live && p !in procs
    requires Extends(sess, live[t].sess)
    ensures TipsOk(live - {t}, procs[p := TokenTaken(t, sess, todo)], lines)
  {
    var live', procs' := live - {t}, procs[p := TokenTaken(t, sess, todo)];
    FewerTips(live, live', procs, procs, lines);
    assert LiveOk(live, lines, t);
    forall q | HasToken(procs', q) ensures FlightOk(live', procs', lines, q) {
      if q != p { assert FlightOk(live', procs, lines, q); }
    }
    forall q, r, f | InFlight(procs', q, f) && InFlight(procs', r, f) ensures q == r {
      if q != p && r != p {
        assert InFlight(procs, q, f) && InFlight(procs, r, f);
      } else if q != p {
        FlightHolds(live, procs, lines, q);
      } else if r != p {
        FlightHolds(live, procs, lines, r);
      }
    }
    forall x | x in live' ensures LiveOk(live', lines, x) {
      assert LiveOk(live, lines, x);
    }
  }

  lemma MissIsCalmer(m: Machine, p: nat, t: Token, client: ClientId, requested: seq<Scope>)
    requires p in m.procs || t !in m.store.live || m.store.live[t].sess.client != client
    ensures Calmer(m, DoTakeToken(m, p, t, client, requested))
  {
  }

  lemma TakeTokenInv(m: Machine, p: nat, t: Token, client: ClientId, requested: seq<Scope>)
    requires Inv(m)
    ensures Inv(DoTakeToken(m, p, t, client, requested))
  {
    var m' := DoTakeToken(m, p, t, client, requested);
    if p in m.procs || t !in m.store.live || m.store.live[t].sess.client != client {
      MissIsCalmer(m, p, t, client, requested);
      CalmerInv(m, m');
    } else {
      var sess := m.store.live[t].sess;
      var narrowed := sess.(scopes := Narrow(sess.scopes, requested));
      NarrowNeverWidens(sess.scopes, requested);
      FewerCodes(m.codes, m'.codes, m.mintedCodes, m.procs, m'.procs, m.origins);
      ClaimTips(m.store.live, m.procs, m.lines, p, t, narrowed, [SetUsed(t, sess)] + DropIndex(t, sess));
    }
  }

  // ---- Steps that save a token ----

  lemma GrownAt(lines: map<FamilyId, seq<Link>>, f: FamilyId, link: Link, g: FamilyId, i: int, x: Token)
    requires At(Grown(lines, f, link), g, i, x)
    ensures At(lines, g, i, x) || (x == link.token && g == f && i == |Grown(lines, f, link)[f]| - 1)
  {
  }

  lemma GrownNames(lines: map<FamilyId, seq<Link>>, f: FamilyId, link: Link, minted: set<Token>)
    requires forall g, i, t :: At(lines, g, i, t) ==> t in minted
    requires forall g, h, i, j, t :: At(lines, g, i, t) && At(lines, h, j, t) ==> g == h && i == j
    requires link.token !in minted
    ensures var lines' := Grown(lines, f, link);
            && (forall g, i, t :: At(lines', g, i, t) ==> t in minted + {link.token})
            && (forall g, h, i, j, t :: At(lines', g, i, t) && At(lines', h, j, t) ==> g == h && i == j)
  {
    var lines' := Grown(lines, f, link);
    forall g, i, x | At(lines', g, i, x) ensures At(lines, g, i, x) || (x == link.token && g == f && i == |lines'[f]| - 1) {
      GrownAt(lines, f, link, g, i, x);
    }
  }

  /** A new last element in line f, whatever the line was. */
  lemma GrownLines(lines: map<FamilyId, seq<Link>>, origins: map<FamilyId, Origin>, minted: set<Token>,
                   f: FamilyId, link: Link, lines': map<FamilyId, seq<Link>>, origins': map<FamilyId, Origin>)
    requires LinesOk(lines, origins, minted) && link.token !in minted
    requires lines' == Grown(lines, f, link)
    requires origins'.Keys == origins.Keys + {f} && LineOk(lines'[f], f, origins'[f].grant)
    requires forall g :: g in origins && g != f ==> origins'[g] == origins[g]
    ensures LinesOk(lines', origins', minted + {link.token})
  {
    GrownNames(lines, f, link, minted);
    forall g | g in lines' && g != f ensures LineOk(lines'[g], g, origins'[g].grant) {
      assert lines'[g] == lines[g];
    }
  }

  /** The family's old tip has no other holder, so the new one may become live. */
  lemma GrownTips(live: map<Token, Entry>, procs: map<nat, Proc>, lines: map<FamilyId, seq<Link>>,
                  p: nat, e: Entry, link: Link, todo: seq<Cmd>, minted: set<Token>)
    requires TipsOk(live, procs, lines) && link.sess == e.sess && link.token !in minted
    requires forall g, i, x :: At(lines, g, i, x) ==> x in minted
    requires forall x :: x in live ==> live[x].sess.family != e.sess.family
    requires forall q :: InFlight(procs, q, e.sess.family) ==> q == p
    ensures TipsOk(live[link.token := e], procs[p := Sending(todo)], Grown(lines, e.sess.family, link))
  {
    var lines' := Grown(lines, e.sess.family, link);
    var live', procs' := live[link.token := e], procs[p := Sending(todo)];
    forall x | x in live' ensures LiveOk(live', lines', x) {
      if x != link.token { assert LiveOk(live, lines, x); }
    }
    forall q | HasToken(procs', q) ensures FlightOk(live', procs', lines', q) {
      assert FlightOk(live, procs, lines, q);
      assert At(lines, procs[q].sess.family, |lines[procs[q].sess.family]| - 1, procs[q].parent);
      assert InFlight(procs, q, procs[q].sess.family);
    }
    forall q, r, f | InFlight(procs', q, f) && InFlight(procs', r, f) ensures q == r {
      assert InFlight(procs, q, f) && InFlight(procs, r, f);
    }
  }

  lemma NextLine(lines: map<FamilyId, seq<Link>>, origins: map<FamilyId, Origin>, minted: set<Token>, f: FamilyId, link: Link)
    requires LinesOk(lines, origins, minted) && f in lines && lines[f] != [] && link.token !in minted
    requires var tip := lines[f][|lines[f]| - 1];
             link.parent == Some(tip.token) && Extends(link.sess, tip.sess)
    ensures LinesOk(Grown(lines, f, link), origins, minted + {link.token})
  {
    NextLineOk(lines[f], f, origins[f].grant, link);
    assert Grown(lines, f, link)[f] == lines[f] + [link];
    assert origins.Keys + {f} == origins.Keys;
    GrownLines(lines, origins, minted, f, link, Grown(lines, f, link), origins);
  }

  lemma NextLineOk(line: seq<Link>, f: FamilyId, g: Grant, next: Link)
    requires LineOk(line, f, g)
    requires next.parent == Some(line[|line| - 1].token) && Extends(next.sess, line[|line| - 1].sess)
    ensures LineOk(line + [next], f, g)
  {
    forall i | 0 < i < |line| + 1 ensures Follows(line + [next], i) {
      assert i < |line| ==> Follows(line, i);
    }
  }

  /** What SetLive leaves, given what each part of the invariant needs. */
  lemma SetLiveInv(m: Machine, n: Machine, p: nat, t: Token, sess: Session, parent: Option<Token>)
    requires n == SetLive(m, p, t, sess, parent).(origins := n.origins)
    requires LinesOk(Grown(m.lines, sess.family, Link(t, parent, sess)), n.origins, m.mintedTokens + {t})
    requires CodesOk(m.codes, m.mintedCodes, m.procs[p := Sending(SaveIndex(t, sess))], n.origins)
    requires TipsOk(m.store.live[t := Entry(sess, m.store.now + TTL)], m.procs[p := Sending(SaveIndex(t, sess))],
                    Grown(m.lines, sess.family, Link(t, parent, sess)))
    ensures Inv(n)
  {
    var procs', lines', live' := n.procs, n.lines, n.store.live;
    assert procs' == m.procs[p := Sending(SaveIndex(t, sess))];
    assert lines' == Grown(m.lines, sess.family, Link(t, parent, sess));
    assert live' == m.store.live[t := Entry(sess, m.store.now + TTL)];
  }

  lemma NextTokenInv(m: Machine, p: nat, t: Token)
    requires Inv(m)
    ensures Inv(DoNextToken(m, p, t))
  {
    var m' := DoNextToken(m, p, t);
    if m' != m {
      var sess := m.procs[p].sess;
      var f, link := sess.family, Link(t, Some(m.procs[p].parent), sess);
      assert FlightOk(m.store.live, m.procs, m.lines, p);
      FlightHolds(m.store.live, m.procs, m.lines, p);
      NextLine(m.lines, m.origins, m.mintedTokens, f, link);
      FewerCodes(m.codes, m.codes, m.mintedCodes, m.procs, m.procs[p := Sending(SaveIndex(t, sess))], m.origins);
      GrownTips(m.store.live, m.procs, m.lines, p, Entry(sess, m.store.now + TTL), link, SaveIndex(t, sess), m.mintedTokens);
      SetLiveInv(m, m', p, t, sess, link.parent);
    }
  }

  /** A family without a line has no holder. */
  lemma UnusedFamily(live: map<Token, Entry>, procs: map<nat, Proc>, lines: map<FamilyId, seq<Link>>, f: FamilyId)
    requires TipsOk(live, procs, lines) && f !in lines
    ensures forall x :: x in live ==> live[x].sess.family != f
    ensures forall q :: !InFlight(procs, q, f)
  {
    forall x | x in live ensures live[x].sess.family != f {
      assert LiveOk(live, lines, x);
    }
    forall q | HasToken(procs, q) ensures !InFlight(procs, q, f) {
      assert FlightOk(live, procs, lines, q);
    }
  }

  lemma SpentCode(codes: map<Code, CodeEntry<Grant>>, minted: set<Code>, procs: map<nat, Proc>, origins: map<FamilyId, Origin>,
                  p: nat, f: FamilyId, todo: seq<Cmd>)
    requires CodesOk(codes, minted, procs, origins) && HasCode(procs, p) && f !in origins
    ensures CodesOk(codes, minted, procs[p := Sending(todo)], origins[f := Origin(procs[p].code, procs[p].grant)])
  {
  }

  lemma FirstLine(lines: map<FamilyId, seq<Link>>, origins: map<FamilyId, Origin>, minted: set<Token>,
                  f: FamilyId, o: Origin, link: Link)
    requires LinesOk(lines, origins, minted) && f !in origins && link.token !in minted && link.parent == None
    requires link.sess == Session(o.grant.user, o.grant.client, o.grant.scopes, o.grant.authTime, f)
    ensures LinesOk(Grown(lines, f, link), origins[f := o], minted + {link.token})
  {
    assert LineOk([link], f, o.grant);
    assert Grown(lines, f, link)[f] == [link];
    GrownLines(lines, origins, minted, f, link, Grown(lines, f, link), origins[f := o]);
  }

  lemma FirstSaveInv(m: Machine, m': Machine, p: nat, t: Token, f: FamilyId, sess: Session)
    requires Inv(m) && HasCode(m.procs, p) && t !in m.mintedTokens && f !in m.origins
    requires var g := m.procs[p].grant; sess == Session(g.user, g.client, g.scopes, g.authTime, f)
    requires m' == SetLive(m, p, t, sess, None).(origins := m.origins[f := Origin(m.procs[p].code, m.procs[p].grant)])
    ensures Inv(m')
  {
    var link := Link(t, None, sess);
    FirstLine(m.lines, m.origins, m.mintedTokens, f, Origin(m.procs[p].code, m.procs[p].grant), link);
    SpentCode(m.codes, m.mintedCodes, m.procs, m.origins, p, f, SaveIndex(t, sess));
    UnusedFamily(m.store.live, m.procs, m.lines, f);
    GrownTips(m.store.live, m.procs, m.lines, p, Entry(sess, m.store.now + TTL), link, SaveIndex(t, sess), m.mintedTokens);
    SetLiveInv(m, m', p, t, sess, None);
  }

  lemma FirstTokenInv(m: Machine, p: nat, t: Token, f: FamilyId)
    requires Inv(m)
    ensures Inv(DoFirstToken(m, p, t, f))
  {
    var m' := DoFirstToken(m, p, t, f);
    if m' != m {
      var g := m.procs[p].grant;
      if "offline_access" !in g.scopes {
        CalmerInv(m, m');
      } else {
        FirstSaveInv(m, m', p, t, f, Session(g.user, g.client, g.scopes, g.authTime, f));
      }
    }
  }

  lemma StepInv(m: Machine, a: Act)
    requires Inv(m)
    ensures Inv(Step(m, a))
  {
    match a
    case Consent(code, user, client, scopes, allowed) => ConsentInv(m, code, user, client, scopes, allowed);
    case TakeCode(p, code, client) => TakeCodeInv(m, p, code, client);
    case FirstToken(p, t, f) => FirstTokenInv(m, p, t, f);
    case TakeToken(p, t, client, requested) => TakeTokenInv(m, p, t, client, requested);
    case NextToken(p, t) => NextTokenInv(m, p, t);
    case _ => QuietIsCalmer(m, a); CalmerInv(m, Step(m, a));
  }
}
