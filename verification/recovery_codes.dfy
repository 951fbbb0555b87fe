/** Recovery codes: matched, removed and regenerated under the row lock (mfa/service.go,
    mfa/repository.go). bcrypt is any relation between a hash and a code. */
module RecoveryCodes {
  import opened Names

  type Digest = string
  type Compare = (Digest, string) -> bool

  /** The index of the first hash that matches code, or |hashes|. */
  function FirstMatch(cmp: Compare, hashes: seq<Digest>, code: string): nat {
    if hashes == [] then 0
    else if cmp(hashes[0], code) then 0
    else 1 + FirstMatch(cmp, hashes[1..], code)
  }

  function Consume(cmp: Compare, hashes: seq<Digest>, code: string): (seq<Digest>, bool) {
    var i := FirstMatch(cmp, hashes, code);
    if i < |hashes| then (hashes[..i] + hashes[i + 1..], true) else (hashes, false)
  }

  lemma {:induction false} FirstMatchIsFirst(cmp: Compare, hashes: seq<Digest>, code: string)
    ensures var i := FirstMatch(cmp, hashes, code);
            && i <= |hashes|
            && (i < |hashes| ==> cmp(hashes[i], code))
            && forall j :: 0 <= j < i ==> !cmp(hashes[j], code)
  {
    if hashes != [] && !cmp(hashes[0], code) {
      FirstMatchIsFirst(cmp, hashes[1..], code);
      forall j | 0 < j < FirstMatch(cmp, hashes, code) ensures !cmp(hashes[j], code) {
        assert hashes[j] == hashes[1..][j - 1];
      }
    }
  }

  /** A code succeeds exactly when some stored hash matches it; success removes the first matching
      entry and nothing else, and the rest keep their order. */
  lemma ConsumeRemovesOne(cmp: Compare, hashes: seq<Digest>, code: string)
    ensures var (rest, ok) := Consume(cmp, hashes, code);
            && (ok <==> exists h :: h in hashes && cmp(h, code))
            && (!ok ==> rest == hashes)
            && (ok ==> exists i :: 0 <= i < |hashes| && cmp(hashes[i], code) && rest == hashes[..i] + hashes[i + 1..]
                                   && (forall j :: 0 <= j < i ==> !cmp(hashes[j], code))
                                   && multiset(hashes) == multiset(rest) + multiset{hashes[i]})
  {
    FirstMatchIsFirst(cmp, hashes, code);
    var i := FirstMatch(cmp, hashes, code);
    if i < |hashes| {
      assert hashes == hashes[..i] + [hashes[i]] + hashes[i + 1..];
    }
  }

  /** How many stored hashes match code. */
  function Matches(cmp: Compare, hashes: seq<Digest>, code: string): nat {
    if hashes == [] then 0 else Matches(cmp, hashes[1..], code) + if cmp(hashes[0], code) then 1 else 0
  }

  lemma {:induction false} MatchesSplit(cmp: Compare, a: seq<Digest>, b: seq<Digest>, code: string)
    ensures Matches(cmp, a + b, code) == Matches(cmp, a, code) + Matches(cmp, b, code)
  {
    if a == [] {
      assert a + b == b;
    } else {
      MatchesSplit(cmp, a[1..], b, code);
      assert (a + b)[1..] == a[1..] + b;
    }
  }

  lemma ConsumeCount(cmp: Compare, hashes: seq<Digest>, tried: string, code: string)
    ensures var (rest, ok) := Consume(cmp, hashes, tried);
            && Matches(cmp, rest, code) <= Matches(cmp, hashes, code)
            && (ok && tried == code ==> Matches(cmp, rest, code) + 1 == Matches(cmp, hashes, code))
  {
    FirstMatchIsFirst(cmp, hashes, tried);
    var i := FirstMatch(cmp, hashes, tried);
    if i < |hashes| {
      MatchesWithout(cmp, hashes, i, code);
    }
  }

  lemma MatchesWithout(cmp: Compare, hashes: seq<Digest>, i: nat, code: string)
    requires i < |hashes|
    ensures Matches(cmp, hashes, code) == Matches(cmp, hashes[..i] + hashes[i + 1..], code) + if cmp(hashes[i], code) then 1 else 0
  {
    assert hashes == hashes[..i] + ([hashes[i]] + hashes[i + 1..]);
    MatchesSplit(cmp, hashes[..i], [hashes[i]] + hashes[i + 1..], code);
    MatchesSplit(cmp, [hashes[i]], hashes[i + 1..], code);
    MatchesSplit(cmp, hashes[..i], hashes[i + 1..], code);
  }

  /** The list after a sequence of tries, each one locked transaction. */
  function AfterTries(cmp: Compare, hashes: seq<Digest>, tries: seq<string>): seq<Digest>
    decreases |tries|
  {
    if tries == [] then hashes else AfterTries(cmp, Consume(cmp, hashes, tries[0]).0, tries[1..])
  }

  /** How many of the tries of code succeed. */
  function Successes(cmp: Compare, hashes: seq<Digest>, tries: seq<string>, code: string): nat
    decreases |tries|
  {
    if tries == [] then 0
    else
      var (rest, ok) := Consume(cmp, hashes, tries[0]);
      Successes(cmp, rest, tries[1..], code) + if ok && tries[0] == code then 1 else 0
  }

  /** In any serial order of concurrent tries a code succeeds at most once for each stored hash
      that matches it, so at most once when only its own hash does. */
  lemma {:induction false} EachCodeOnce(cmp: Compare, hashes: seq<Digest>, tries: seq<string>, code: string)
    ensures Successes(cmp, hashes, tries, code) + Matches(cmp, AfterTries(cmp, hashes, tries), code) <= Matches(cmp, hashes, code)
    decreases |tries|
  {
    if tries != [] {
      ConsumeCount(cmp, hashes, tries[0], code);
      EachCodeOnce(cmp, Consume(cmp, hashes, tries[0]).0, tries[1..], code);
    }
  }

  /** No stored hash matches two codes. */
  ghost predicate Exclusive(cmp: Compare) {
    forall h, c, d :: cmp(h, c) && cmp(h, d) ==> c == d
  }

  /** When no hash matches two codes nothing but its own successes uses up a code. */
  lemma {:induction false} CodesAreConserved(cmp: Compare, hashes: seq<Digest>, tries: seq<string>, code: string)
    requires Exclusive(cmp)
    ensures Successes(cmp, hashes, tries, code) + Matches(cmp, AfterTries(cmp, hashes, tries), code) == Matches(cmp, hashes, code)
    decreases |tries|
  {
    if tries != [] {
      FirstMatchIsFirst(cmp, hashes, tries[0]);
      var i := FirstMatch(cmp, hashes, tries[0]);
      if i < |hashes| {
        MatchesWithout(cmp, hashes, i, code);
      }
      CodesAreConserved(cmp, Consume(cmp, hashes, tries[0]).0, tries[1..], code);
    }
  }

  function Hashes(raw: seq<string>, hash: string -> Digest): seq<Digest> {
    seq(|raw|, i requires 0 <= i < |raw| => hash(raw[i]))
  }

  /** Every code of a fresh set is good. */
  lemma FreshCodesWork(cmp: Compare, hash: string -> Digest, raw: seq<string>, i: nat)
    requires i < |raw| && forall c :: cmp(hash(c), c)
    ensures Consume(cmp, Hashes(raw, hash), raw[i]).1
  {
    ConsumeRemovesOne(cmp, Hashes(raw, hash), raw[i]);
    assert Hashes(raw, hash)[i] in Hashes(raw, hash) && cmp(Hashes(raw, hash)[i], raw[i]);
  }

  /** A user's row: secret "" until setup is verified. */
  datatype Row = Row(secret: string, pending: Option<string>, enabled: bool, codes: seq<Digest>, pendingCodes: seq<Digest>)

  class Repository {
    var rows: map<UserId, Row>

    constructor ()
      ensures rows == map[]
    {
      rows := map[];
    }

    /** A setup in progress leaves the active secret, its codes and the enabled flag alone. */
    method UpsertPending(user: UserId, pending: string, codes: seq<Digest>)
      modifies this
      ensures rows == old(rows)[user := (if user in old(rows) then old(rows)[user] else Row("", None, false, [], []))
                                        .(pending := Some(pending), pendingCodes := codes)]
    {
      var row := if user in rows then rows[user] else Row("", None, false, [], []);
      rows := rows[user := row.(pending := Some(pending), pendingCodes := codes)];
    }

    /** The pending secret and codes become the active ones together, or nothing changes. */
    method Enable(user: UserId) returns (ok: bool)
      modifies this
      ensures ok <==> user in old(rows) && old(rows)[user].pending.Some?
      ensures !ok ==> rows == old(rows)
      ensures ok ==> var r := old(rows)[user];
                     rows == old(rows)[user := Row(r.pending.value, None, true, r.pendingCodes, [])]
    {
      if user !in rows || rows[user].pending.None? {
        return false;
      }
      var r := rows[user];
      rows := rows[user := Row(r.pending.value, None, true, r.pendingCodes, [])];
      ok := true;
    }

    method UpdateRecoveryCodes(user: UserId, codes: seq<Digest>)
      modifies this
      ensures rows == if user in old(rows) then old(rows)[user := old(rows)[user].(codes := codes)] else old(rows)
    {
      if user in rows {
        rows := rows[user := rows[user].(codes := codes)];
      }
    }

    method ConsumeRecoveryCode(user: UserId, cmp: Compare, code: string) returns (consumed: bool)
      modifies this
      ensures consumed <==> user in old(rows) && Consume(cmp, old(rows)[user].codes, code).1
      ensures rows == if consumed then old(rows)[user := old(rows)[user].(codes := Consume(cmp, old(rows)[user].codes, code).0)]
                      else old(rows)
    {
      if user !in rows {
        return false;
      }
      var codes := rows[user].codes;
      var i := 0;
      while i < |codes| && !cmp(codes[i], code)
        invariant i <= |codes|
        invariant FirstMatch(cmp, codes, code) == i + FirstMatch(cmp, codes[i..], code)
      {
        assert codes[i..][1..] == codes[i + 1..];
        i := i + 1;
      }
      if i == |codes| {
        return false;
      }
      rows := rows[user := rows[user].(codes := codes[..i] + codes[i + 1..])];
      consumed := true;
    }

    method Delete(user: UserId)
      modifies this
      ensures rows == old(rows) - {user}
    {
      rows := rows - {user};
    }
  }

  /** Eight codes and their hashes; the codes come from a random source. */
  method GenerateRecoveryCodes(random: nat -> string, hash: string -> Digest) returns (raw: array<string>, hashed: array<Digest>)
    ensures fresh(raw) && fresh(hashed) && raw.Length == hashed.Length == 8
    ensures forall i :: 0 <= i < 8 ==> raw[i] == random(i) && hashed[i] == hash(raw[i])
  {
    raw := new string[8](_ => "");
    hashed := new Digest[8](_ => "");
    for i := 0 to 8
      invariant forall j :: 0 <= j < i ==> raw[j] == random(j) && hashed[j] == hash(raw[j])
    {
      var code := random(i);
      raw[i] := code;
      hashed[i] := hash(code);
    }
  }

  /** Regeneration replaces every code of an enabled user, and refuses anybody else. */
  method RegenerateRecoveryCodes(repo: Repository, user: UserId, random: nat -> string, hash: string -> Digest)
    returns (raw: Option<seq<string>>)
    modifies repo
    ensures raw.Some? <==> user in old(repo.rows) && old(repo.rows)[user].enabled
    ensures raw.None? ==> repo.rows == old(repo.rows)
    ensures raw.Some? ==> && |raw.value| == 8
                          && repo.rows == old(repo.rows)[user := old(repo.rows)[user].(codes := Hashes(raw.value, hash))]
  {
    if user !in repo.rows || !repo.rows[user].enabled {
      return None;
    }
    var rawCodes, hashedCodes := GenerateRecoveryCodes(random, hash);
    var codes := rawCodes[..];
    assert hashedCodes[..] == Hashes(codes, hash);
    repo.UpdateRecoveryCodes(user, hashedCodes[..]);
    raw := Some(codes);
  }
}
