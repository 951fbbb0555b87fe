/** RefreshTokenStore with its fields updated in place, each method one store operation. */
module RefreshTokens {
  import opened Names
  import opened RefreshKeys
  import opened RefreshStore

  /** The keys handed to one DEL command. */
  datatype Key = LiveKey(t: Token) | IndexKey(o: Owner)

  class RefreshTokenStore {
    var now: nat
    var live: map<Token, Entry>
    var used: map<Token, Entry>
    var index: map<Owner, Index>
    ghost var ledger: Ledger

    ghost function State(): Store
      reads this
    {
      Store(now, live, used, index)
    }

    ghost predicate Valid()
      reads this
    {
      Good(State(), ledger)
    }

    constructor ()
      ensures Valid() && State() == Empty && ledger == map[]
    {
      now, live, used, index, ledger := 0, map[], map[], map[], map[];
    }

    /** Time passes between two commands. */
    method Elapse(seconds: nat)
      requires Valid()
      modifies this
      ensures Valid() && State() == Wait(old(State()), seconds) && ledger == old(ledger)
    {
      WaitGood(State(), ledger, seconds);
      now := now + seconds;
      live := Unexpired(live, now);
      used := Unexpired(used, now);
      index := map o | o in index && (index[o].exp.None? || now < index[o].exp.value) :: index[o];
    }

    method Save(token: Token, session: Session, newFamily: FamilyId) returns (stored: Session)
      requires Valid() && token !in ledger && newFamily != ""
      modifies this
      ensures Valid() && stored == WithFamily(session, newFamily)
      ensures ledger == LedgerSave(old(ledger), now, token, stored) && now == old(now)
      ensures State() == RefreshStore.Save(old(State()), token, stored)
      // on the keys
      ensures stored == if session.family == "" then Session(session.user, session.client, session.scopes, session.authTime, newFamily) else session
      ensures live == old(live)[token := Entry(stored, now + 2592000)] && used == old(used)
      ensures forall o :: o == User(stored.user) || o == Family(stored.family) ==>
                o in index && token in index[o].members && index[o].exp == Some(now + 2592000)
    {
      SaveGood(State(), ledger, token, WithFamily(session, newFamily));
      ghost var after := RefreshStore.Save(State(), token, WithFamily(session, newFamily));
      stored := session;
      if stored.family == "" {
        stored := stored.(family := newFamily);
      }
      live := live[token := Entry(stored, now + TTL)];
      AddToIndex(User(stored.user), token);
      AddToIndex(Family(stored.family), token);
      ledger := LedgerSave(ledger, now, token, stored);
      assert State() == after;
    }

    /** SADD, then EXPIRE. */
    method AddToIndex(o: Owner, token: Token)
      modifies this`index
      ensures index == RefreshStore.AddToIndex(old(index), now, o, token)
    {
      index := SAdd(index, o, token);
      index := Expire(index, now, o);
    }

    method GetAndConsume(token: Token) returns (answer: Answer)
      requires Valid()
      modifies this
      ensures Valid() && answer == Classify(old(ledger), old(now), token)
      ensures ledger == LedgerConsume(old(ledger), now, token) && now == old(now)
      ensures ledger.Keys == old(ledger).Keys && (answer.Found? ==> answer.sess.family != "")
      ensures State() == RefreshStore.GetAndConsume(old(State()), token).0
      // on the keys
      ensures answer == if token in old(live) then Found(old(live)[token].sess) else if token in old(used) then Reused else NotFound
      ensures answer.Found? ==> live == old(live) - {token} && used == old(used)[token := Entry(answer.sess, now + 2592000)]
      ensures answer.Reused? ==>
                && used == old(used)
                && (forall x :: x in live <==> x in old(live) && old(live)[x].sess.family != old(used)[token].sess.family)
                && forall x :: x in live ==> live[x] == old(live)[x]
      ensures answer.NotFound? ==> live == old(live) && used == old(used) && index == old(index)
    {
      Presented(State(), ledger, token);
      if token !in live && token in used {
        ReuseExact(State(), ledger, token);
      }
      answer := Take(token);
      ledger := LedgerConsume(ledger, now, token);
    }

    method Take(token: Token) returns (answer: Answer)
      modifies this`live, this`used, this`index
      ensures (State(), answer) == RefreshStore.GetAndConsume(old(State()), token)
    {
      if token in live {
        var sess := live[token].sess;
        live := live - {token};
        used := used[token := Entry(sess, now + TTL)];
        index := SRem(index, User(sess.user), {token});
        index := SRem(index, Family(sess.family), {token});
        answer := Found(sess);
      } else {
        answer := HandleMiss(token);
      }
    }

    method HandleMiss(token: Token) returns (answer: Answer)
      modifies this`live, this`index
      ensures (State(), answer) == RefreshStore.HandleMiss(old(State()), token)
    {
      if token !in used {
        return NotFound;
      }
      var sess := used[token].sess;
      RevokeFamily(sess.family, sess.user);
      answer := Reused;
    }

    method RevokeFamily(family: FamilyId, user: UserId)
      modifies this`live, this`index
      ensures State() == RefreshStore.RevokeFamily(old(State()), family, user)
    {
      if family == "" {
        return;
      }
      var hashes := Members(index, Family(family));
      if hashes != {} {
        DelLive(hashes);
        index := SRem(index, User(user), hashes);
      }
      Del({IndexKey(Family(family))});
      assert index == (if hashes == {} then old(index) else SRem(old(index), User(user), hashes)) - {Family(family)};
    }

    method Peek(token: Token) returns (r: Option<Session>)
      requires Valid()
      ensures r.Some? <==> Classify(ledger, now, token).Found?
      ensures r.Some? ==> r.value == ledger[token].sess
      ensures r == if token in live then Some(live[token].sess) else None
    {
      r := Get(live, token);
    }

    method Delete(token: Token)
      requires Valid()
      modifies this
      ensures Valid() && ledger == LedgerDelete(old(ledger), now, token) && now == old(now)
      ensures State() == RefreshStore.Delete(old(State()), token)
      ensures live == old(live) - {token} && used == old(used)
    {
      DeleteGood(State(), ledger, token);
      ghost var after := LedgerDelete(ledger, now, token);
      if token in live {
        var sess := live[token].sess;
        live := live - {token};
        index := SRem(index, User(sess.user), {token});
        index := SRem(index, Family(sess.family), {token});
      }
      ledger := after;
    }

    method RevokeAllForUser(user: UserId)
      requires Valid()
      modifies this
      ensures Valid() && ledger == Withdraw(old(ledger), User(user)) && now == old(now)
      ensures State() == RefreshStore.RevokeAllForUser(old(State()), user)
      ensures forall x :: x in live <==> x in old(live) && old(live)[x].sess.user != user
      ensures (forall x :: x in live ==> live[x] == old(live)[x]) && used == old(used)
    {
      RevokeUserGood(State(), ledger, user);
      UserRevocationExact(State(), ledger, user);
      ghost var after := RefreshStore.RevokeAllForUser(State(), user);
      DropUser(user);
      ledger := Withdraw(ledger, User(user));
      assert State() == after;
    }

    method DropUser(user: UserId)
      modifies this`live, this`index
      ensures State() == RefreshStore.RevokeAllForUser(old(State()), user)
    {
      var keys := LiveKeys(Members(index, User(user)));
      Del(keys + {IndexKey(User(user))});
    }

    method DelLive(hashes: set<Token>)
      modifies this`live, this`index
      ensures live == old(live) - hashes && index == old(index)
    {
      var keys := LiveKeys(hashes);
      Del(keys);
      assert live == old(live) - hashes;
    }

    method LiveKeys(hashes: set<Token>) returns (keys: set<Key>)
      ensures forall k :: k in keys <==> k.LiveKey? && k.t in hashes
    {
      keys := {};
      var rest := hashes;
      while rest != {}
        invariant rest <= hashes
        invariant forall k :: k in keys <==> k.LiveKey? && k.t in hashes - rest
        decreases rest
      {
        var h :| h in rest;
        keys := keys + {LiveKey(h)};
        rest := rest - {h};
      }
    }

    method Del(keys: set<Key>)
      modifies this`live, this`index
      ensures live == map t | t in old(live) && LiveKey(t) !in keys :: old(live)[t]
      ensures index == map o | o in old(index) && IndexKey(o) !in keys :: old(index)[o]
    {
      live := map t | t in live && LiveKey(t) !in keys :: live[t];
      index := map o | o in index && IndexKey(o) !in keys :: index[o];
    }
  }
}
