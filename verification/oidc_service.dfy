/** The authorization-code store and the exchanges of one request run by itself
    (oidc/authcode.go, oidc/service.go). */
module OidcService {
  import opened Names
  import opened AuthCodes
  import opened RefreshKeys
  import opened RefreshStore
  import opened RefreshTokens
  import opened Scopes

  datatype CodeSession = CodeSession(
    user: UserId, client: ClientId, redirect: string, scopes: seq<Scope>, hasChallenge: bool, authTime: nat)

  /** Codes as GETDEL sees them. */
  class AuthCodeStore {
    var now: nat
    var codes: map<Code, CodeEntry<CodeSession>>

    constructor ()
      ensures codes == map[] && now == 0
    {
      codes, now := map[], 0;
    }

    ghost predicate Holds(code: Code)
      reads this
    {
      code in codes && now < codes[code].exp
    }

    method Save(code: Code, session: CodeSession)
      modifies this`codes
      ensures codes == old(codes)[code := CodeEntry(session, now + 300)] && Holds(code)
    {
      codes := codes[code := CodeEntry(session, now + CODE_TTL)];
    }

    /** A code is handed out at most once, and only within its five minutes. */
    method GetAndConsume(code: Code) returns (r: Option<CodeSession>)
      modifies this`codes
      ensures r.Some? <==> old(Holds(code))
      ensures r.Some? ==> r.value == old(codes)[code].sess
      ensures !Holds(code) && forall c :: c != code ==> Holds(c) == old(Holds(c))
      ensures codes == old(codes) - {code}
      ensures r == if code in old(codes) && now < old(codes)[code].exp then Some(old(codes)[code].sess) else None
    {
      r := if code in codes && now < codes[code].exp then Some(codes[code].sess) else None;
      codes := codes - {code};
    }
  }

  datatype TokenError = InvalidGrant | InvalidRedirectURI | VerifierFailed | ReuseDetected

  datatype Response = Tokens(scopes: seq<Scope>, refresh: Option<Token>) | Refused(error: TokenError)

  /** A client secret is absent, or right, or wrong. */
  datatype Secret = NoSecret | Right | Wrong

  /** A code is good for the client it was issued to, at the redirect URI it was issued for, on
      behalf of an active user, with the client secret or the code verifier proved: a secret that
      is sent must be right, a challenge that was set must be answered, and one of them must be there. */
  predicate Redeems(sess: CodeSession, client: ClientId, redirect: string, secret: Secret, verifierOk: bool, userActive: bool) {
    && sess.client == client && sess.redirect == redirect && userActive
    && secret != Wrong && (sess.hasChallenge ==> verifierOk) && (secret == Right || sess.hasChallenge)
  }

  /** The keys of one token, as the ledger says. */
  predicate Keyed(s: Store, l: Ledger, x: Token) {
    && (x in s.live <==> x in l && l[x].fate == Standing && s.now < l[x].issued + 2592000)
    && (x in s.live ==> s.live[x] == Entry(l[x].sess, l[x].issued + 2592000))
    && (x in s.used <==> x in l && l[x].fate.Consumed? && s.now < l[x].fate.at + 2592000)
    && (x in s.used ==> s.used[x] == Entry(l[x].sess, l[x].fate.at + 2592000))
  }

  lemma AllKeyed(s: Store, l: Ledger)
    requires Good(s, l)
    ensures forall x :: Keyed(s, l, x)
  {
    forall x ensures Keyed(s, l, x) {
      LedgerAnswers(l, s.now, x);
    }
  }

  /** What an exchange does to the ledger, read off the keys. */
  lemma Exchanged(s: Store, l: Ledger, s': Store, l': Ledger, token: Token, newToken: Token, next: Session)
    requires (forall x :: Keyed(s, l, x)) && (forall x :: Keyed(s', l', x)) && s'.now == s.now && newToken !in l && token in s.live
    requires l' == LedgerSave(LedgerConsume(l, s.now, token), s.now, newToken, next)
    ensures s'.live == (s.live - {token})[newToken := Entry(next, s.now + 2592000)]
    ensures s'.used == s.used[token := Entry(s.live[token].sess, s.now + 2592000)]
  {
    assert Keyed(s, l, token);
    assert l' == l[token := l[token].(fate := Consumed(s.now))][newToken := Record(next, s.now, Standing)];
    var live := (s.live - {token})[newToken := Entry(next, s.now + 2592000)];
    forall x ensures (x in s'.live <==> x in live) && (x in live ==> s'.live[x] == live[x]) {
      assert Keyed(s, l, x) && Keyed(s', l', x);
    }
    var used := s.used[token := Entry(s.live[token].sess, s.now + 2592000)];
    forall x ensures (x in s'.used <==> x in used) && (x in used ==> s'.used[x] == used[x]) {
      assert Keyed(s, l, x) && Keyed(s', l', x);
    }
  }

  lemma OnlySpent(s: Store, l: Ledger, s': Store, l': Ledger, token: Token)
    requires (forall x :: Keyed(s, l, x)) && (forall x :: Keyed(s', l', x)) && s'.now == s.now && (token in s.live || token !in s.used)
    requires l' == LedgerConsume(l, s.now, token)
    ensures s'.live == s.live - {token}
  {
    assert Keyed(s, l, token);
    assert l' == if token in s.live then l[token := l[token].(fate := Consumed(s.now))] else l;
    forall x ensures (x in s'.live <==> x in s.live && x != token) && (x in s'.live ==> s'.live[x] == s.live[x]) {
      assert Keyed(s, l, x) && Keyed(s', l', x);
    }
  }

  lemma FamilySpent(s: Store, l: Ledger, s': Store, l': Ledger, token: Token)
    requires (forall x :: Keyed(s, l, x)) && (forall x :: Keyed(s', l', x)) && s'.now == s.now && token !in s.live && token in s.used
    requires l' == LedgerConsume(l, s.now, token)
    ensures forall x :: x in s'.live <==> x in s.live && s.live[x].sess.family != s.used[token].sess.family
  {
    assert Keyed(s, l, token);
    assert l' == Withdraw(l, Family(s.used[token].sess.family));
    forall x ensures x in s'.live <==> x in s.live && s.live[x].sess.family != s.used[token].sess.family {
      assert Keyed(s, l, x) && Keyed(s', l', x);
    }
  }

  class Service {
    const codeStore: AuthCodeStore
    const refreshStore: RefreshTokenStore

    constructor (codeStore: AuthCodeStore, refreshStore: RefreshTokenStore)
      ensures this.codeStore == codeStore && this.refreshStore == refreshStore
    {
      this.codeStore, this.refreshStore := codeStore, refreshStore;
    }

    method ExchangeCode(code: Code, client: ClientId, redirect: string, secret: Secret, verifierOk: bool, userActive: bool,
                        newToken: Token, newFamily: FamilyId) returns (r: Response)
      requires refreshStore.Valid() && newToken !in refreshStore.ledger && newFamily != ""
      modifies codeStore`codes, refreshStore
      ensures refreshStore.Valid() && !codeStore.Holds(code)
      ensures r.Tokens? <==>
                old(codeStore.Holds(code)) && Redeems(old(codeStore.codes)[code].sess, client, redirect, secret, verifierOk, userActive)
      ensures r == Refused(InvalidRedirectURI) <==>
                old(codeStore.Holds(code)) && old(codeStore.codes)[code].sess.client == client
                && old(codeStore.codes)[code].sess.redirect != redirect
      ensures r == Refused(VerifierFailed) <==>
                && old(codeStore.Holds(code)) && old(codeStore.codes)[code].sess.client == client
                && old(codeStore.codes)[code].sess.redirect == redirect
                && old(codeStore.codes)[code].sess.hasChallenge && !verifierOk && secret != Wrong
      ensures r != Refused(ReuseDetected)
      ensures r.Tokens? ==>
                var sess := old(codeStore.codes)[code].sess;
                && r.scopes == sess.scopes
                && r.refresh == (if "offline_access" in sess.scopes then Some(newToken) else None)
                && refreshStore.ledger == if r.refresh.None? then old(refreshStore.ledger)
                     else LedgerSave(old(refreshStore.ledger), refreshStore.now, newToken,
                                     Session(sess.user, client, sess.scopes, sess.authTime, newFamily))
      ensures r.Refused? ==> refreshStore.ledger == old(refreshStore.ledger)
      // on the code's session and the keys
      ensures codeStore.codes == old(codeStore.codes) - {code}
      ensures r.Tokens? <==>
                && code in old(codeStore.codes) && codeStore.now < old(codeStore.codes)[code].exp && userActive
                && var sess := old(codeStore.codes)[code].sess;
                   && sess.client == client && sess.redirect == redirect && secret != Wrong
                   && (sess.hasChallenge ==> verifierOk) && (secret == NoSecret ==> sess.hasChallenge)
      ensures r.Tokens? ==>
                var sess := old(codeStore.codes)[code].sess;
                && r == Tokens(sess.scopes, if "offline_access" in sess.scopes then Some(newToken) else None)
                && refreshStore.used == old(refreshStore.used)
                && refreshStore.live == if "offline_access" !in sess.scopes then old(refreshStore.live)
                     else old(refreshStore.live)[newToken := Entry(Session(sess.user, client, sess.scopes, sess.authTime, newFamily),
                                                                   old(refreshStore.now) + 2592000)]
      ensures r.Refused? ==> refreshStore.live == old(refreshStore.live) && refreshStore.used == old(refreshStore.used)
    {
      var taken := codeStore.GetAndConsume(code);
      if taken.None? {
        return Refused(InvalidGrant);
      }
      var sess := taken.value;
      if sess.client != client {
        return Refused(InvalidGrant);
      }
      if sess.redirect != redirect {
        return Refused(InvalidRedirectURI);
      }
      if secret != NoSecret {
        if secret == Wrong {
          return Refused(InvalidGrant);
        }
      } else if !sess.hasChallenge {
        return Refused(InvalidGrant);
      }
      if sess.hasChallenge && !verifierOk {
        return Refused(VerifierFailed);
      }
      if !userActive {
        return Refused(InvalidGrant);
      }
      var refresh := None;
      if "offline_access" in sess.scopes {
        var _ := refreshStore.Save(newToken, Session(sess.user, client, sess.scopes, sess.authTime, ""), newFamily);
        refresh := Some(newToken);
      }
      r := Tokens(sess.scopes, refresh);
    }

    /** A client that fails authentication costs the token nothing; after that the token is
        spent whether or not the exchange goes through. */
    method ExchangeRefreshToken(token: Token, client: ClientId, authenticated: bool, requested: seq<Scope>, userActive: bool,
                                newToken: Token) returns (r: Response)
      requires refreshStore.Valid() && newToken !in refreshStore.ledger
      modifies refreshStore
      ensures refreshStore.Valid() && refreshStore.now == old(refreshStore.now)
      ensures !authenticated ==> r == Refused(InvalidGrant) && refreshStore.ledger == old(refreshStore.ledger)
      // in the ledger: the token is spent, whatever comes of it, and only then is a successor issued
      ensures authenticated ==>
                var l := old(refreshStore.ledger);
                var (spent, answer) := (LedgerConsume(l, refreshStore.now, token), Classify(l, refreshStore.now, token));
                && (r.Tokens? <==> answer.Found? && answer.sess.client == client && userActive)
                && (r == Refused(ReuseDetected) <==> answer == Reused)
                && refreshStore.ledger == if r.Refused? then spent
                     else LedgerSave(spent, refreshStore.now, newToken, answer.sess.(scopes := Narrow(answer.sess.scopes, requested)))
      // on the keys
      ensures var (live, used) := (old(refreshStore.live), old(refreshStore.used));
              var (live', used') := (refreshStore.live, refreshStore.used);
              if !authenticated then live' == live && used' == used
              else if token in live && live[token].sess.client == client && userActive then
                var sess := live[token].sess;
                var next := Session(sess.user, client, Narrow(sess.scopes, requested), sess.authTime, sess.family);
                && r == Tokens(next.scopes, Some(newToken))
                && used' == used[token := Entry(sess, refreshStore.now + 2592000)]
                && live' == (live - {token})[newToken := Entry(next, refreshStore.now + 2592000)]
              else if token in live || token !in used then r == Refused(InvalidGrant) && live' == live - {token}
              else r == Refused(ReuseDetected) && forall x :: x in live' <==> x in live && live[x].sess.family != used[token].sess.family
    {
      if !authenticated {
        return Refused(InvalidGrant);
      }
      ghost var (s, l) := (refreshStore.State(), refreshStore.ledger);
      r := SpendAndReissue(token, client, requested, userActive, newToken);
      AllKeyed(s, l);
      AllKeyed(refreshStore.State(), refreshStore.ledger);
      if r.Tokens? {
        var sess := Classify(l, s.now, token).sess;
        Exchanged(s, l, refreshStore.State(), refreshStore.ledger, token, newToken, sess.(scopes := Narrow(sess.scopes, requested)));
      } else if token in s.live || token !in s.used {
        OnlySpent(s, l, refreshStore.State(), refreshStore.ledger, token);
      } else {
        FamilySpent(s, l, refreshStore.State(), refreshStore.ledger, token);
      }
    }

    method SpendAndReissue(token: Token, client: ClientId, requested: seq<Scope>, userActive: bool, newToken: Token) returns (r: Response)
      requires refreshStore.Valid() && newToken !in refreshStore.ledger
      modifies refreshStore
      ensures refreshStore.Valid() && refreshStore.now == old(refreshStore.now)
      ensures var l := old(refreshStore.ledger);
              var (spent, answer) := (LedgerConsume(l, refreshStore.now, token), Classify(l, refreshStore.now, token));
              && r == (if answer == Reused then Refused(ReuseDetected)
                       else if answer.Found? && answer.sess.client == client && userActive
                       then Tokens(Narrow(answer.sess.scopes, requested), Some(newToken))
                       else Refused(InvalidGrant))
              && refreshStore.ledger == if r.Refused? then spent
                   else LedgerSave(spent, refreshStore.now, newToken, answer.sess.(scopes := Narrow(answer.sess.scopes, requested)))
    {
      var answer := refreshStore.GetAndConsume(token);
      if !answer.Found? {
        return Refused(if answer.Reused? then ReuseDetected else InvalidGrant);
      }
      var sess := answer.sess;
      if sess.client != client {
        return Refused(InvalidGrant);
      }
      var scopes := NarrowScopes(sess.scopes, requested);
      if !userActive {
        return Refused(InvalidGrant);
      }
      var _ := refreshStore.Save(newToken, Session(sess.user, client, scopes, sess.authTime, sess.family), "f");
      r := Tokens(scopes, Some(newToken));
    }

    /** Only the client a live token was issued to can revoke it. */
    method RevokeRefreshToken(token: Token, client: ClientId)
      requires refreshStore.Valid()
      modifies refreshStore
      ensures refreshStore.Valid()
      ensures var l := old(refreshStore.ledger);
              var mine := Classify(l, old(refreshStore.now), token).Found? && l[token].sess.client == client;
              refreshStore.ledger == if mine then l[token := l[token].(fate := Withdrawn)] else l
      ensures refreshStore.used == old(refreshStore.used)
      ensures refreshStore.live ==
                if token in old(refreshStore.live) && old(refreshStore.live)[token].sess.client == client
                then old(refreshStore.live) - {token} else old(refreshStore.live)
    {
      var sess := refreshStore.Peek(token);
      if sess.None? || sess.value.client != client {
        return;
      }
      refreshStore.Delete(token);
    }
  }
}
