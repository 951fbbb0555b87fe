/** The Redis keys behind OIDC refresh tokens, one function per Redis command
    (oidc/refreshtoken.go). A key leaves its map at the moment its expiry passes. */
module RefreshKeys {
  import opened Names

  /** Thirty days, in seconds. */
  const TTL: nat := 30 * 24 * 3600

  datatype Session = Session(user: UserId, client: ClientId, scopes: seq<Scope>, authTime: nat, family: FamilyId)

  datatype Entry = Entry(sess: Session, exp: nat)

  /** Whose set a key holds: the per-user index or the per-family index. */
  datatype Owner = User(u: UserId) | Family(f: FamilyId)

  /** A Redis set; it has no expiry between the SADD that creates it and its EXPIRE. */
  datatype Index = Index(members: set<Token>, exp: Option<nat>)

  datatype Store = Store(now: nat, live: map<Token, Entry>, used: map<Token, Entry>, index: map<Owner, Index>)

  const Empty := Store(0, map[], map[], map[])

  predicate Owns(o: Owner, sess: Session) {
    o == User(sess.user) || o == Family(sess.family)
  }

  function Get(m: map<Token, Entry>, t: Token): Option<Session> {
    if t in m then Some(m[t].sess) else None
  }

  function Members(m: map<Owner, Index>, o: Owner): set<Token> {
    if o in m then m[o].members else {}
  }

  function SAdd(m: map<Owner, Index>, o: Owner, t: Token): map<Owner, Index> {
    m[o := Index(Members(m, o) + {t}, if o in m then m[o].exp else None)]
  }

  function Expire(m: map<Owner, Index>, now: nat, o: Owner): map<Owner, Index> {
    if o in m then m[o := m[o].(exp := Some(now + TTL))] else m
  }

  /** Redis removes a set that SREM leaves empty. */
  function SRem(m: map<Owner, Index>, o: Owner, ts: set<Token>): map<Owner, Index> {
    if o !in m then m
    else if m[o].members <= ts then m - {o}
    else m[o := m[o].(members := m[o].members - ts)]
  }

  function Unexpired(m: map<Token, Entry>, now: nat): map<Token, Entry> {
    map t | t in m && now < m[t].exp :: m[t]
  }

  /** Time passes; whatever expires meanwhile is gone. */
  function Wait(s: Store, seconds: nat): Store {
    var now := s.now + seconds;
    Store(now, Unexpired(s.live, now), Unexpired(s.used, now),
          map o | o in s.index && (s.index[o].exp.None? || now < s.index[o].exp.value) :: s.index[o])
  }
}

/** The operations of RefreshTokenStore as sequences of those commands, and an index-free
    ledger that says what each of them should answer. */
module RefreshStore {
  import opened Names
  import opened RefreshKeys

  datatype Answer = Found(sess: Session) | Reused | NotFound

  // ---- Operations on the Redis keys ----

  /** A session without a family starts a new one. */
  function WithFamily(sess: Session, newFamily: FamilyId): Session {
    if sess.family == "" then sess.(family := newFamily) else sess
  }

  function AddToIndex(m: map<Owner, Index>, now: nat, o: Owner, t: Token): map<Owner, Index> {
    Expire(SAdd(m, o, t), now, o)
  }

  function Save(s: Store, t: Token, sess: Session): Store {
    s.(live := s.live[t := Entry(sess, s.now + TTL)],
       index := AddToIndex(AddToIndex(s.index, s.now, User(sess.user), t), s.now, Family(sess.family), t))
  }

  function Unindex(m: map<Owner, Index>, sess: Session, t: Token): map<Owner, Index> {
    SRem(SRem(m, User(sess.user), {t}), Family(sess.family), {t})
  }

  function RevokeFamily(s: Store, f: FamilyId, u: UserId): Store {
    if f == "" then s
    else
      var ts := Members(s.index, Family(f));
      if ts == {} then s.(index := s.index - {Family(f)})
      else s.(live := s.live - ts, index := SRem(s.index, User(u), ts) - {Family(f)})
  }

  function HandleMiss(s: Store, t: Token): (Store, Answer) {
    match Get(s.used, t)
    case None => (s, NotFound)
    case Some(sess) => (RevokeFamily(s, sess.family, sess.user), Reused)
  }

  function GetAndConsume(s: Store, t: Token): (Store, Answer) {
    match Get(s.live, t)
    case None => HandleMiss(s, t)
    case Some(sess) =>
      (s.(live := s.live - {t},
          used := s.used[t := Entry(sess, s.now + TTL)],
          index := Unindex(s.index, sess, t)), Found(sess))
  }

  function Delete(s: Store, t: Token): Store {
    match Get(s.live, t)
    case None => s
    case Some(sess) => s.(live := s.live - {t}, index := Unindex(s.index, sess, t))
  }

  function RevokeAllForUser(s: Store, u: UserId): Store {
    s.(live := s.live - Members(s.index, User(u)), index := s.index - {User(u)})
  }

  // ---- The ledger: every token ever issued, with no index at all ----

  datatype Fate = Standing | Consumed(at: nat) | Withdrawn

  datatype Record = Record(sess: Session, issued: nat, fate: Fate)

  type Ledger = map<Token, Record>

  function Classify(l: Ledger, now: nat, t: Token): Answer {
    if t !in l then NotFound
    else match l[t].fate
      case Standing => if now < l[t].issued + TTL then Found(l[t].sess) else NotFound
      case Consumed(at) => if now < at + TTL then Reused else NotFound
      case Withdrawn => NotFound
  }

  function Withdraw(l: Ledger, o: Owner): Ledger {
    map t | t in l :: if Owns(o, l[t].sess) && l[t].fate == Standing then l[t].(fate := Withdrawn) else l[t]
  }

  function LedgerSave(l: Ledger, now: nat, t: Token, sess: Session): Ledger {
    l[t := Record(sess, now, Standing)]
  }

  function LedgerConsume(l: Ledger, now: nat, t: Token): Ledger {
    match Classify(l, now, t)
    case Found(_) => l[t := l[t].(fate := Consumed(now))]
    case Reused => Withdraw(l, Family(l[t].sess.family))
    case NotFound => l
  }

  function LedgerDelete(l: Ledger, now: nat, t: Token): Ledger {
    if Classify(l, now, t).Found? then l[t := l[t].(fate := Withdrawn)] else l
  }

  // ---- The operations, key by key; thirty days are 2592000 seconds ----

  /** Saving sets the token's key for thirty days, and adds it to its user's and its family's index,
      which last at least as long; every other key stays. */
  lemma SaveExactly(s: Store, t: Token, sess: Session, o: Owner)
    ensures var s' := Save(s, t, sess);
            && s'.now == s.now && s'.used == s.used && s'.live == s.live[t := Entry(sess, s.now + 2592000)]
            && (if o == User(sess.user) || o == Family(sess.family)
                then o in s'.index && s'.index[o] == Index((if o in s.index then s.index[o].members else {}) + {t}, Some(s.now + 2592000))
                else (o in s'.index <==> o in s.index) && (o in s.index ==> s'.index[o] == s.index[o]))
  {
  }

  /** Which answer GetAndConsume gives, and what it leaves: a live token becomes a tombstone of
      thirty days and leaves its two indexes. */
  lemma ConsumeExactly(s: Store, t: Token, o: Owner)
    ensures var (s', answer) := GetAndConsume(s, t);
            if t in s.live then
              var sess := s.live[t].sess;
              && answer == Found(sess) && s'.now == s.now
              && s'.live == s.live - {t} && s'.used == s.used[t := Entry(sess, s.now + 2592000)]
              && (if o == User(sess.user) || o == Family(sess.family)
                  then (o in s'.index <==> o in s.index && !(s.index[o].members <= {t}))
                       && (o in s'.index ==> s'.index[o] == Index(s.index[o].members - {t}, s.index[o].exp))
                  else (o in s'.index <==> o in s.index) && (o in s.index ==> s'.index[o] == s.index[o]))
            else answer == (if t in s.used then Reused else NotFound) && (t !in s.used ==> s' == s)
  {
  }

  /** A tombstone's family loses every token its index lists, the index itself, and the user's index
      those tokens. */
  lemma ReuseExactly(s: Store, t: Token, o: Owner)
    requires t !in s.live && t in s.used && s.used[t].sess.family != ""
    ensures var (s', u, f) := (GetAndConsume(s, t).0, s.used[t].sess.user, s.used[t].sess.family);
            var listed := if Family(f) in s.index then s.index[Family(f)].members else {};
            && s'.now == s.now && s'.used == s.used && s'.live == s.live - listed && Family(f) !in s'.index
            && (o != Family(f) ==>
                  if o == User(u) && listed != {}
                  then (o in s'.index <==> o in s.index && !(s.index[o].members <= listed))
                       && (o in s'.index ==> s'.index[o] == Index(s.index[o].members - listed, s.index[o].exp))
                  else (o in s'.index <==> o in s.index) && (o in s.index ==> s'.index[o] == s.index[o]))
  {
  }

  lemma DeleteExactly(s: Store, t: Token, o: Owner)
    ensures t !in s.live ==> Delete(s, t) == s
    ensures t in s.live ==>
              var (s', sess) := (Delete(s, t), s.live[t].sess);
              && s'.now == s.now && s'.live == s.live - {t} && s'.used == s.used
              && (if o == User(sess.user) || o == Family(sess.family)
                  then (o in s'.index <==> o in s.index && !(s.index[o].members <= {t}))
                       && (o in s'.index ==> s'.index[o] == Index(s.index[o].members - {t}, s.index[o].exp))
                  else (o in s'.index <==> o in s.index) && (o in s.index ==> s'.index[o] == s.index[o]))
  {
  }

  lemma RevokeUserExactly(s: Store, u: UserId)
    ensures var s' := RevokeAllForUser(s, u);
            && s'.now == s.now && s'.used == s.used && s'.index == s.index - {User(u)}
            && s'.live == s.live - if User(u) in s.index then s.index[User(u)].members else {}
  {
  }

  lemma WaitExactly(s: Store, d: nat, t: Token, o: Owner)
    ensures var s' := Wait(s, d);
            && s'.now == s.now + d
            && (t in s'.live <==> t in s.live && s.now + d < s.live[t].exp) && (t in s'.live ==> s'.live[t] == s.live[t])
            && (t in s'.used <==> t in s.used && s.now + d < s.used[t].exp) && (t in s'.used ==> s'.used[t] == s.used[t])
            && (o in s'.index <==> o in s.index && (s.index[o].exp == None || s.now + d < s.index[o].exp.value))
            && (o in s'.index ==> s'.index[o] == s.index[o])
  {
  }

  /** What the ledger answers, and what becomes of a token x when t is issued, presented or deleted,
      or an owner's tokens are withdrawn. */
  lemma LedgerAnswers(l: Ledger, now: nat, t: Token)
    ensures Classify(l, now, t) ==
              if t in l && l[t].fate == Standing && now < l[t].issued + 2592000 then Found(l[t].sess)
              else if t in l && l[t].fate.Consumed? && now < l[t].fate.at + 2592000 then Reused
              else NotFound
  {
  }

  lemma LedgerSteps(l: Ledger, now: nat, t: Token, sess: Session, o: Owner, x: Token)
    requires x in l
    ensures LedgerSave(l, now, t, sess) == l[t := Record(sess, now, Standing)]
    ensures x in Withdraw(l, o) && Withdraw(l, o)[x] ==
              if l[x].fate == Standing && (o == User(l[x].sess.user) || o == Family(l[x].sess.family))
              then Record(l[x].sess, l[x].issued, Withdrawn) else l[x]
    ensures var fate := if t in l then l[t].fate else Withdrawn;
            && x in LedgerConsume(l, now, t) && LedgerConsume(l, now, t)[x] ==
                 (if x == t && fate == Standing && now < l[t].issued + 2592000 then Record(l[x].sess, l[x].issued, Consumed(now))
                  else if fate.Consumed? && now < fate.at + 2592000 && l[x].fate == Standing && l[x].sess.family == l[t].sess.family
                  then Record(l[x].sess, l[x].issued, Withdrawn)
                  else l[x])
            && x in LedgerDelete(l, now, t) && LedgerDelete(l, now, t)[x] ==
                 if x == t && fate == Standing && now < l[t].issued + 2592000 then Record(l[x].sess, l[x].issued, Withdrawn) else l[x]
  {
  }

  // ---- What ties the two together ----

  /** The keys hold exactly the tokens that the ledger says stand or were consumed. */
  ghost predicate Agrees(s: Store, l: Ledger) {
    && (forall t :: t in s.live <==> Classify(l, s.now, t).Found?)
    && (forall t :: t in s.live ==> s.live[t] == Entry(l[t].sess, l[t].issued + TTL))
    && (forall t :: t in s.used <==> Classify(l, s.now, t).Reused?)
    && (forall t :: t in s.used ==> s.used[t] == Entry(l[t].sess, l[t].fate.at + TTL))
    && (forall t :: t in l ==> l[t].sess.family != "" && l[t].issued <= s.now)
  }

  predicate Covers(m: map<Owner, Index>, o: Owner, t: Token, exp: nat) {
    o in m && t in m[o].members && (m[o].exp.None? || exp <= m[o].exp.value)
  }

  /** Every live token is in its user's and its family's index, and neither index expires
      before it does. */
  ghost predicate Indexed(s: Store) {
    forall t, o :: t in s.live && Owns(o, s.live[t].sess) ==> Covers(s.index, o, t, s.live[t].exp)
  }

  /** An index lists only tokens issued to its owner; some of them may be long gone. */
  ghost predicate Owned(s: Store, l: Ledger) {
    forall o, t :: t in Members(s.index, o) ==> t in l && Owns(o, l[t].sess)
  }

  ghost predicate Good(s: Store, l: Ledger) {
    Agrees(s, l) && Indexed(s) && Owned(s, l)
  }

  // ---- Every operation keeps the tie and answers as the ledger does ----

  lemma Shrunk(m: map<Owner, Index>, o: Owner, ts: set<Token>)
    ensures var n := SRem(m, o, ts);
            forall x, t, e :: (x != o || t !in ts) && Covers(m, x, t, e) ==> Covers(n, x, t, e)
    ensures forall x :: Members(SRem(m, o, ts), x) <= Members(m, x)
  {
  }

  lemma Unindexed(m: map<Owner, Index>, sess: Session, t: Token)
    ensures forall x, y, e :: y != t && Covers(m, x, y, e) ==> Covers(Unindex(m, sess, t), x, y, e)
    ensures forall x :: Members(Unindex(m, sess, t), x) <= Members(m, x)
  {
    var m1 := SRem(m, User(sess.user), {t});
    Shrunk(m, User(sess.user), {t});
    Shrunk(m1, Family(sess.family), {t});
    forall x, y, e | y != t && Covers(m, x, y, e) ensures Covers(Unindex(m, sess, t), x, y, e) {
      assert Covers(m1, x, y, e);
    }
    forall x ensures Members(Unindex(m, sess, t), x) <= Members(m, x) {
      assert Members(m1, x) <= Members(m, x);
    }
  }

  /** An index that only lost members stays owned. */
  lemma StaysOwned(s: Store, l: Ledger, s': Store, l': Ledger)
    requires Owned(s, l)
    requires forall o :: Members(s'.index, o) <= Members(s.index, o)
    requires forall t :: t in l ==> t in l' && l'[t].sess == l[t].sess
    ensures Owned(s', l')
  {
    forall o, t | t in Members(s'.index, o) ensures t in l' && Owns(o, l'[t].sess) {
      assert t in Members(s.index, o);
    }
  }

  lemma OthersAnswered(l: Ledger, now: nat, t: Token, r: Record, x: Token)
    requires x != t
    ensures Classify(l[t := r], now, x) == Classify(l, now, x)
  {
  }

  lemma SaveAgrees(s: Store, l: Ledger, t: Token, sess: Session)
    requires Agrees(s, l) && t !in l && sess.family != ""
    ensures Agrees(Save(s, t, sess), LedgerSave(l, s.now, t, sess))
  {
    var s', l' := Save(s, t, sess), LedgerSave(l, s.now, t, sess);
    assert Classify(l', s.now, t) == Found(sess);
    forall x | x != t ensures Classify(l', s.now, x) == Classify(l, s.now, x) {
      OthersAnswered(l, s.now, t, Record(sess, s.now, Standing), x);
    }
    assert s'.live == s.live[t := Entry(sess, s.now + TTL)] && s'.used == s.used;
    assert t !in s.used && t !in s.live;
  }

  lemma Added(m: map<Owner, Index>, now: nat, sess: Session, t: Token)
    ensures var n := AddToIndex(AddToIndex(m, now, User(sess.user), t), now, Family(sess.family), t);
            && (forall o :: Owns(o, sess) ==> Covers(n, o, t, now + TTL))
            && (forall o, x, e: nat :: e <= now + TTL && Covers(m, o, x, e) ==> Covers(n, o, x, e))
            && (forall o, x :: x in Members(n, o) ==> x in Members(m, o) || (x == t && Owns(o, sess)))
  {
  }

  lemma SaveGood(s: Store, l: Ledger, t: Token, sess: Session)
    requires Good(s, l) && t !in l && sess.family != ""
    ensures Good(Save(s, t, sess), LedgerSave(l, s.now, t, sess))
  {
    var s', l' := Save(s, t, sess), LedgerSave(l, s.now, t, sess);
    SaveAgrees(s, l, t, sess);
    Added(s.index, s.now, sess, t);
    forall x, o | x in s'.live && Owns(o, s'.live[x].sess)
      ensures Covers(s'.index, o, x, s'.live[x].exp)
    {
      if x != t {
        assert Covers(s.index, o, x, s.live[x].exp);
      }
    }
    forall o, x | x in Members(s'.index, o) ensures x in l' && Owns(o, l'[x].sess) {
      assert x in Members(s.index, o) || (x == t && Owns(o, sess));
    }
  }

  lemma WithdrawAgrees(s: Store, l: Ledger, o: Owner, s': Store)
    requires Agrees(s, l) && s'.now == s.now && s'.used == s.used
    requires forall t :: t in s'.live <==> t in s.live && !Owns(o, s.live[t].sess)
    requires forall t :: t in s'.live ==> s'.live[t] == s.live[t]
    ensures Agrees(s', Withdraw(l, o))
  {
    var l' := Withdraw(l, o);
    forall t ensures Classify(l', s.now, t) ==
        if Classify(l, s.now, t).Found? && Owns(o, l[t].sess) then NotFound else Classify(l, s.now, t) {
    }
  }

  /** Deleting every token that an owner's index lists is withdrawing that owner's tokens:
      the index misses none of them and lists nobody else's. */
  lemma SweepGood(s: Store, l: Ledger, o: Owner, s': Store)
    requires Good(s, l)
    requires s' == s.(live := s.live - Members(s.index, o), index := s'.index)
    requires forall x, t, e :: t !in Members(s.index, o) && x != o && Covers(s.index, x, t, e) ==> Covers(s'.index, x, t, e)
    requires forall x :: Members(s'.index, x) <= Members(s.index, x)
    ensures Good(s', Withdraw(l, o))
  {
    forall t | t in s.live ensures t in Members(s.index, o) <==> Owns(o, s.live[t].sess) {
      if Owns(o, s.live[t].sess) {
        assert Covers(s.index, o, t, s.live[t].exp);
      }
    }
    WithdrawAgrees(s, l, o, s');
    forall t, x | t in s'.live && Owns(x, s'.live[t].sess)
      ensures Covers(s'.index, x, t, s'.live[t].exp)
    {
      assert Covers(s.index, x, t, s.live[t].exp);
    }
    StaysOwned(s, l, s', Withdraw(l, o));
  }

  lemma FamilyRevocationGood(s: Store, l: Ledger, f: FamilyId, u: UserId)
    requires Good(s, l) && f != ""
    ensures Good(RevokeFamily(s, f, u), Withdraw(l, Family(f)))
  {
    var s' := RevokeFamily(s, f, u);
    var ts := Members(s.index, Family(f));
    var m := SRem(s.index, User(u), ts);
    Shrunk(s.index, User(u), ts);
    forall x, t, e | t !in ts && x != Family(f) && Covers(s.index, x, t, e) ensures Covers(s'.index, x, t, e) {
      assert Covers(m, x, t, e);
    }
    forall x ensures Members(s'.index, x) <= Members(s.index, x) {
      assert Members(m, x) <= Members(s.index, x);
    }
    SweepGood(s, l, Family(f), s');
  }

  /** Removing one live token and its index entries, whatever the ledger then says of it. */
  lemma TakeGood(s: Store, l: Ledger, t: Token, s': Store, l': Ledger)
    requires Good(s, l) && t in s.live && Agrees(s', l')
    requires s'.live == s.live - {t} && s'.index == Unindex(s.index, s.live[t].sess, t)
    requires forall x :: x in l ==> x in l' && l'[x].sess == l[x].sess
    ensures Good(s', l')
  {
    Unindexed(s.index, s.live[t].sess, t);
    forall x, o | x in s'.live && Owns(o, s'.live[x].sess)
      ensures Covers(s'.index, o, x, s'.live[x].exp)
    {
      assert Covers(s.index, o, x, s.live[x].exp);
    }
    StaysOwned(s, l, s', l');
  }

  lemma ConsumeAgrees(s: Store, l: Ledger, t: Token)
    requires Agrees(s, l) && t in s.live
    ensures Agrees(GetAndConsume(s, t).0, LedgerConsume(l, s.now, t))
  {
    var l' := LedgerConsume(l, s.now, t);
    assert Classify(l', s.now, t) == Reused;
    forall x | x != t ensures Classify(l', s.now, x) == Classify(l, s.now, x) {
    }
  }

  lemma ConsumeGood(s: Store, l: Ledger, t: Token)
    requires Good(s, l)
    ensures GetAndConsume(s, t).1 == Classify(l, s.now, t)
    ensures Good(GetAndConsume(s, t).0, LedgerConsume(l, s.now, t))
  {
    if t in s.live {
      ConsumeAgrees(s, l, t);
      TakeGood(s, l, t, GetAndConsume(s, t).0, LedgerConsume(l, s.now, t));
    } else if t in s.used {
      FamilyRevocationGood(s, l, l[t].sess.family, l[t].sess.user);
    }
  }

  lemma DeleteGood(s: Store, l: Ledger, t: Token)
    requires Good(s, l)
    ensures Good(Delete(s, t), LedgerDelete(l, s.now, t))
  {
    if t in s.live {
      TakeGood(s, l, t, Delete(s, t), LedgerDelete(l, s.now, t));
    }
  }

  lemma RevokeUserGood(s: Store, l: Ledger, u: UserId)
    requires Good(s, l)
    ensures Good(RevokeAllForUser(s, u), Withdraw(l, User(u)))
  {
    SweepGood(s, l, User(u), RevokeAllForUser(s, u));
  }

  lemma WaitGood(s: Store, l: Ledger, d: nat)
    requires Good(s, l)
    ensures Good(Wait(s, d), l)
  {
    var s' := Wait(s, d);
    forall x, o | x in s'.live && Owns(o, s'.live[x].sess)
      ensures Covers(s'.index, o, x, s'.live[x].exp)
    {
      assert Covers(s.index, o, x, s.live[x].exp);
    }
    StaysOwned(s, l, s', l);
  }

  // ---- Runs: any sequence of operations from the empty store ----

  datatype Op =
    | Issue(t: Token, sess: Session, newFamily: FamilyId)
    | Consume(t: Token)
    | Remove(t: Token)
    | RevokeUser(u: UserId)
    | Pass(seconds: nat)

  datatype World = World(store: Store, ledger: Ledger)

  /** A token is 32 random bytes and a new family a random UUID, so a repeated token or an
      empty family name does not happen. */
  function Do(w: World, op: Op): World {
    match op
    case Issue(t, sess, newFamily) =>
      var s := WithFamily(sess, newFamily);
      if t in w.ledger || s.family == "" then w
      else World(Save(w.store, t, s), LedgerSave(w.ledger, w.store.now, t, s))
    case Consume(t) => World(GetAndConsume(w.store, t).0, LedgerConsume(w.ledger, w.store.now, t))
    case Remove(t) => World(Delete(w.store, t), LedgerDelete(w.ledger, w.store.now, t))
    case RevokeUser(u) => World(RevokeAllForUser(w.store, u), Withdraw(w.ledger, User(u)))
    case Pass(d) => World(Wait(w.store, d), w.ledger)
  }

  function After(ops: seq<Op>): World {
    if ops == [] then World(Empty, map[]) else Do(After(ops[..|ops| - 1]), ops[|ops| - 1])
  }

  lemma DoGood(w: World, op: Op)
    requires Good(w.store, w.ledger)
    ensures Good(Do(w, op).store, Do(w, op).ledger)
  {
    match op
    case Issue(t, sess, newFamily) =>
      if Do(w, op) != w {
        SaveGood(w.store, w.ledger, t, WithFamily(sess, newFamily));
      }
    case Consume(t) => ConsumeGood(w.store, w.ledger, t);
    case Remove(t) => DeleteGood(w.store, w.ledger, t);
    case RevokeUser(u) => RevokeUserGood(w.store, w.ledger, u);
    case Pass(d) => WaitGood(w.store, w.ledger, d);
  }

  /** In every run the keys agree with the ledger, every live token is in both of its
      indexes, and neither index expires before it. */
  lemma {:induction false} AlwaysGood(ops: seq<Op>)
    ensures Good(After(ops).store, After(ops).ledger)
    ensures Indexed(After(ops).store)
  {
    if ops != [] {
      AlwaysGood(ops[..|ops| - 1]);
      DoGood(After(ops[..|ops| - 1]), ops[|ops| - 1]);
    }
  }

  /** After every run GetAndConsume answers each token exactly as the index-free ledger does,
      and an unknown token changes nothing. */
  lemma AnswersExactly(ops: seq<Op>, t: Token)
    ensures var w := After(ops);
            && GetAndConsume(w.store, t).1 == Classify(w.ledger, w.store.now, t)
            && (Classify(w.ledger, w.store.now, t).NotFound? ==> GetAndConsume(w.store, t).0 == w.store)
  {
    AlwaysGood(ops);
    ConsumeGood(After(ops).store, After(ops).ledger, t);
  }

  lemma ReuseExact(s: Store, l: Ledger, t: Token)
    requires Good(s, l) && GetAndConsume(s, t).1.Reused?
    ensures t in l && t in s.used && s.used[t].sess == l[t].sess
    ensures forall x :: x in GetAndConsume(s, t).0.live <==> x in s.live && s.live[x].sess.family != l[t].sess.family
    ensures forall x :: x in GetAndConsume(s, t).0.live ==> GetAndConsume(s, t).0.live[x] == s.live[x]
  {
    var f := l[t].sess.family;
    forall x | x in s.live ensures x in Members(s.index, Family(f)) <==> s.live[x].sess.family == f {
      if s.live[x].sess.family == f {
        assert Covers(s.index, Family(f), x, s.live[x].exp);
      }
    }
  }

  /** What presenting a token does to a store that is in step with its ledger. */
  lemma Presented(s: Store, l: Ledger, t: Token)
    requires Good(s, l)
    ensures var (s', answer) := GetAndConsume(s, t);
            && Good(s', LedgerConsume(l, s.now, t)) && answer == Classify(l, s.now, t)
            && LedgerConsume(l, s.now, t).Keys == l.Keys
            && (answer.Found? ==> answer.sess.family != "")
  {
    ConsumeGood(s, l, t);
  }

  /** After a Reused answer the family has no live token, and every other live token is untouched. */
  lemma ReuseEmptiesFamily(ops: seq<Op>, t: Token)
    requires GetAndConsume(After(ops).store, t).1.Reused?
    ensures var w := After(ops);
            var live := GetAndConsume(w.store, t).0.live;
            && t in w.ledger
            && forall x :: x in live <==> x in w.store.live && w.store.live[x].sess.family != w.ledger[t].sess.family
  {
    AlwaysGood(ops);
    ReuseExact(After(ops).store, After(ops).ledger, t);
  }

  lemma UserRevocationExact(s: Store, l: Ledger, u: UserId)
    requires Good(s, l)
    ensures forall x :: x in RevokeAllForUser(s, u).live <==> x in s.live && s.live[x].sess.user != u
  {
    forall x | x in s.live ensures x in Members(s.index, User(u)) <==> s.live[x].sess.user == u {
      if s.live[x].sess.user == u {
        assert Covers(s.index, User(u), x, s.live[x].exp);
      }
    }
  }

  /** RevokeAllForUser removes exactly the user's live tokens; every family index, stale
      entries included, is as it was. */
  lemma RevokeAllIsExact(ops: seq<Op>, u: UserId)
    ensures var s := After(ops).store;
            var s' := RevokeAllForUser(s, u);
            && (forall x :: x in s'.live <==> x in s.live && s.live[x].sess.user != u)
            && (forall f :: Members(s'.index, Family(f)) == Members(s.index, Family(f)))
  {
    AlwaysGood(ops);
    UserRevocationExact(After(ops).store, After(ops).ledger, u);
  }
}
