/** Single use of TOTP codes over every path that takes one (mfa/service.go): Validate and
    ValidateStepUp, Setup, VerifyAndEnable and Disable. The HMAC is any function from a secret and
    a 30-second step to a code; two steps may share a code. */
module TotpReplay {
  import opened Names

  type Secret = string

  /** norm is what Validate does to a code before anything else, trim what the TOTP library does. */
  datatype Lib = Lib(hotp: (Secret, int) -> string, norm: string -> string, trim: string -> string)

  const PERIOD: nat := 30
  /** How long a used code is remembered, in seconds. */
  const USED_CODE_TTL: nat := 90

  /** totp.Validate with its default skew of one step. */
  predicate Valid(lib: Lib, secret: Secret, code: string, at: nat) {
    var (c, s) := (lib.trim(code), at / PERIOD);
    c == lib.hotp(secret, s - 1) || c == lib.hotp(secret, s) || c == lib.hotp(secret, s + 1)
  }

  datatype Marker = Marker(user: UserId, code: string)

  datatype Path = Validation | Setup | Enabling | Disabling

  /** An accepted code, spelled as it was marked. */
  datatype Accept = Accept(path: Path, user: UserId, secret: Secret, code: string, at: nat)

  /** used holds each marker's expiry; issued and log are history. */
  datatype Sys = Sys(now: nat, secrets: map<UserId, Secret>, pending: map<UserId, Secret>, used: map<Marker, nat>,
                     issued: set<Secret>, log: seq<Accept>)

  const Start := Sys(0, map[], map[], map[], {}, [])

  datatype Act =
    | Validates(user: UserId, raw: string)
    | Setups(user: UserId, code: string, proposal: Secret)
    | Enables(user: UserId, code: string)
    | Disables(user: UserId, code: string)
    | Pass(seconds: nat)

  predicate WasUsed(s: Sys, m: Marker) {
    m in s.used && s.now < s.used[m]
  }

  /** A code for the active secret, not marked, with the replay store up. */
  predicate Accepts(lib: Lib, s: Sys, user: UserId, code: string) {
    user in s.secrets && Valid(lib, s.secrets[user], code, s.now) && !WasUsed(s, Marker(user, code))
  }

  function Mark(s: Sys, path: Path, user: UserId, code: string): Sys
    requires user in s.secrets
  {
    s.(used := s.used[Marker(user, code) := s.now + USED_CODE_TTL],
       log := s.log + [Accept(path, user, s.secrets[user], code, s.now)])
  }

  /** The new secret is random, so it was never issued before. */
  function Propose(s: Sys, user: UserId, proposal: Secret): Sys {
    s.(pending := s.pending[user := proposal], issued := s.issued + {proposal})
  }

  /** The pending secret becomes the active one, and no marker is set. */
  function Enabled(s: Sys, user: UserId, code: string): Sys
    requires user in s.pending
  {
    s.(secrets := s.secrets[user := s.pending[user]], pending := s.pending - {user},
       log := s.log + [Accept(Enabling, user, s.pending[user], code, s.now)])
  }

  function Step(lib: Lib, s: Sys, a: Act): Sys {
    match a
    case Validates(user, raw) =>
      if Accepts(lib, s, user, lib.norm(raw)) then Mark(s, Validation, user, lib.norm(raw)) else s
    case Setups(user, code, proposal) =>
      if proposal in s.issued then s
      else if user !in s.secrets then Propose(s, user, proposal)
      else if code != "" && Accepts(lib, s, user, code) then Propose(Mark(s, Setup, user, code), user, proposal)
      else s
    case Enables(user, code) =>
      if user !in s.pending || !Valid(lib, s.pending[user], code, s.now) then s else Enabled(s, user, code)
    case Disables(user, code) =>
      if !Accepts(lib, s, user, code) then s
      else Mark(s, Disabling, user, code).(secrets := s.secrets - {user}, pending := s.pending - {user})
    case Pass(d) => s.(now := s.now + d)
  }

  function Run(lib: Lib, s: Sys, acts: seq<Act>): Sys
    decreases |acts|
  {
    if acts == [] then s else Run(lib, Step(lib, s, acts[0]), acts[1..])
  }

  // ---- What every step keeps ----

  /** An acceptance that marks leaves its marker for ninety seconds. */
  ghost predicate Marked(s: Sys) {
    forall i :: 0 <= i < |s.log| ==>
      && s.log[i].at <= s.now
      && (!s.log[i].path.Enabling? ==>
            && Marker(s.log[i].user, s.log[i].code) in s.used
            && s.log[i].at + USED_CODE_TTL <= s.used[Marker(s.log[i].user, s.log[i].code)])
  }

  /** The same spelling, once marked, is accepted again by a path that looks only after those. */
  ghost predicate Spread(s: Sys) {
    forall i, j :: 0 <= i < j < |s.log| && s.log[i].user == s.log[j].user && s.log[i].code == s.log[j].code
                   && !s.log[i].path.Enabling? && !s.log[j].path.Enabling? ==>
      s.log[i].at + USED_CODE_TTL <= s.log[j].at
  }

  /** A proposed secret has never been used, and belongs to one user. */
  ghost predicate Fresh(s: Sys) {
    && (forall u :: u in s.secrets ==> s.secrets[u] in s.issued)
    && (forall u :: u in s.pending ==> s.pending[u] in s.issued)
    && (forall u, v :: u in s.pending && v in s.pending && s.pending[u] == s.pending[v] ==> u == v)
    && (forall u, v :: u in s.pending && v in s.secrets ==> s.pending[u] != s.secrets[v])
    && (forall u, i :: u in s.pending && 0 <= i < |s.log| ==> s.log[i].secret != s.pending[u])
    && (forall i :: 0 <= i < |s.log| ==> s.log[i].secret in s.issued)
  }

  /** A secret is enabled before any of its codes is accepted elsewhere. */
  ghost predicate EnabledFirst(s: Sys) {
    forall i, j :: 0 <= i < j < |s.log| && s.log[j].path.Enabling? ==> s.log[i].secret != s.log[j].secret
  }

  predicate Earns(a: Accept, m: Marker, expires: nat) {
    !a.path.Enabling? && Marker(a.user, a.code) == m && expires == a.at + USED_CODE_TTL
  }

  ghost predicate EarnedBy(log: seq<Accept>, m: Marker, expires: nat) {
    exists i :: 0 <= i < |log| && Earns(log[i], m, expires)
  }

  ghost predicate Earned(s: Sys) {
    forall m :: m in s.used ==> EarnedBy(s.log, m, s.used[m])
  }

  lemma StaysEarned(log: seq<Accept>, a: Accept, m: Marker, expires: nat)
    requires EarnedBy(log, m, expires) || Earns(a, m, expires)
    ensures EarnedBy(log + [a], m, expires)
  {
    if i :| 0 <= i < |log| && Earns(log[i], m, expires) {
      assert Earns((log + [a])[i], m, expires);
    } else {
      assert Earns((log + [a])[|log|], m, expires);
    }
  }

  ghost predicate Inv(s: Sys) {
    Marked(s) && Spread(s) && Fresh(s) && EnabledFirst(s) && Earned(s)
  }

  lemma MarkTimes(s: Sys, path: Path, user: UserId, code: string)
    requires Marked(s) && Spread(s) && user in s.secrets && !WasUsed(s, Marker(user, code)) && !path.Enabling?
    ensures Marked(Mark(s, path, user, code)) && Spread(Mark(s, path, user, code))
  {
  }

  lemma MarkSecrets(s: Sys, path: Path, user: UserId, code: string)
    requires Fresh(s) && EnabledFirst(s) && user in s.secrets && !path.Enabling?
    ensures Fresh(Mark(s, path, user, code)) && EnabledFirst(Mark(s, path, user, code))
  {
  }

  lemma MarkInv(s: Sys, path: Path, user: UserId, code: string)
    requires Inv(s) && user in s.secrets && !WasUsed(s, Marker(user, code)) && !path.Enabling?
    ensures Inv(Mark(s, path, user, code))
  {
    var s' := Mark(s, path, user, code);
    MarkTimes(s, path, user, code);
    MarkSecrets(s, path, user, code);
    forall m | m in s'.used ensures EarnedBy(s'.log, m, s'.used[m]) {
      StaysEarned(s.log, Accept(path, user, s.secrets[user], code, s.now), m, s'.used[m]);
    }
  }

  lemma ProposeInv(s: Sys, user: UserId, proposal: Secret)
    requires Inv(s) && proposal !in s.issued
    ensures Inv(Propose(s, user, proposal))
  {
  }

  lemma EnableTimes(s: Sys, user: UserId, code: string)
    requires Marked(s) && Spread(s) && user in s.pending
    ensures Marked(Enabled(s, user, code)) && Spread(Enabled(s, user, code))
  {
  }

  lemma EnableSecrets(s: Sys, user: UserId, code: string)
    requires Fresh(s) && EnabledFirst(s) && user in s.pending
    ensures Fresh(Enabled(s, user, code)) && EnabledFirst(Enabled(s, user, code))
  {
  }

  lemma EnableInv(s: Sys, user: UserId, code: string)
    requires Inv(s) && user in s.pending
    ensures Inv(Enabled(s, user, code))
  {
    var s' := Enabled(s, user, code);
    EnableTimes(s, user, code);
    EnableSecrets(s, user, code);
    forall m | m in s'.used ensures EarnedBy(s'.log, m, s'.used[m]) {
      StaysEarned(s.log, Accept(Enabling, user, s.pending[user], code, s.now), m, s'.used[m]);
    }
  }

  lemma ForgetInv(s: Sys, user: UserId)
    requires Inv(s)
    ensures Inv(s.(secrets := s.secrets - {user}, pending := s.pending - {user}))
  {
  }

  lemma StepInv(lib: Lib, s: Sys, a: Act)
    requires Inv(s)
    ensures Inv(Step(lib, s, a))
  {
    match a
    case Validates(user, raw) =>
      if Accepts(lib, s, user, lib.norm(raw)) { MarkInv(s, Validation, user, lib.norm(raw)); }
    case Setups(user, code, proposal) =>
      if proposal !in s.issued {
        if user !in s.secrets {
          ProposeInv(s, user, proposal);
        } else if code != "" && Accepts(lib, s, user, code) {
          MarkInv(s, Setup, user, code);
          ProposeInv(Mark(s, Setup, user, code), user, proposal);
        }
      }
    case Enables(user, code) =>
      if user in s.pending { EnableInv(s, user, code); }
    case Disables(user, code) =>
      if Accepts(lib, s, user, code) {
        MarkInv(s, Disabling, user, code);
        ForgetInv(Mark(s, Disabling, user, code), user);
      }
    case Pass(_) =>
  }

  lemma {:induction false} RunInv(lib: Lib, s: Sys, acts: seq<Act>)
    requires Inv(s)
    ensures Inv(Run(lib, s, acts))
    decreases |acts|
  {
    if acts != [] {
      StepInv(lib, s, acts[0]);
      RunInv(lib, Step(lib, s, acts[0]), acts[1..]);
    }
  }

  // ---- Which codes are accepted ----

  /** Validate takes a code by TOTP if and only if it is the code of the step at hand or of one next
      to it and no marker for its spelling is live; it is then marked for ninety seconds. */
  lemma ValidatesExactly(lib: Lib, s: Sys, user: UserId, raw: string)
    ensures var (s', m) := (Step(lib, s, Validates(user, raw)), Marker(user, lib.norm(raw)));
            if && user in s.secrets
               && (exists step :: s.now / 30 - 1 <= step <= s.now / 30 + 1 && lib.trim(lib.norm(raw)) == lib.hotp(s.secrets[user], step))
               && !(m in s.used && s.now < s.used[m])
            then s' == s.(used := s.used[m := s.now + 90],
                          log := s.log + [Accept(Validation, user, s.secrets[user], lib.norm(raw), s.now)])
            else s' == s
  {
    if user in s.secrets {
      ValidAsStep(lib, s.secrets[user], lib.norm(raw), s.now);
    }
  }

  lemma ValidAsStep(lib: Lib, secret: Secret, code: string, at: nat)
    ensures Valid(lib, secret, code, at)
            <==> exists step :: at / 30 - 1 <= step <= at / 30 + 1 && lib.trim(code) == lib.hotp(secret, step)
  {
    var s := at / 30;
    if step :| s - 1 <= step <= s + 1 && lib.trim(code) == lib.hotp(secret, step) {
      assert step == s - 1 || step == s || step == s + 1;
    }
  }

  /** The same of the other three paths, each with the state it leaves. */
  lemma OthersExactly(lib: Lib, s: Sys, user: UserId, code: string, proposal: Secret)
    ensures var m := Marker(user, code);
            var good := && user in s.secrets
                        && (exists step :: s.now / 30 - 1 <= step <= s.now / 30 + 1 && lib.trim(code) == lib.hotp(s.secrets[user], step))
                        && !(m in s.used && s.now < s.used[m]);
            && Step(lib, s, Disables(user, code)) ==
                 (if good then s.(secrets := s.secrets - {user}, pending := s.pending - {user}, used := s.used[m := s.now + 90],
                                  log := s.log + [Accept(Disabling, user, s.secrets[user], code, s.now)])
                  else s)
            && Step(lib, s, Setups(user, code, proposal)) ==
                 (if proposal in s.issued then s
                  else if user !in s.secrets then s.(pending := s.pending[user := proposal], issued := s.issued + {proposal})
                  else if code != "" && good
                  then s.(pending := s.pending[user := proposal], issued := s.issued + {proposal}, used := s.used[m := s.now + 90],
                          log := s.log + [Accept(Setup, user, s.secrets[user], code, s.now)])
                  else s)
    ensures Step(lib, s, Enables(user, code)) ==
              if user in s.pending
                 && exists step :: s.now / 30 - 1 <= step <= s.now / 30 + 1 && lib.trim(code) == lib.hotp(s.pending[user], step)
              then s.(secrets := s.secrets[user := s.pending[user]], pending := s.pending - {user},
                      log := s.log + [Accept(Enabling, user, s.pending[user], code, s.now)])
              else s
  {
    if user in s.secrets {
      ValidAsStep(lib, s.secrets[user], code, s.now);
    }
    if user in s.pending {
      ValidAsStep(lib, s.pending[user], code, s.now);
    }
  }

  /** The accepted code is that of step, and step is within one of the moment it was accepted. */
  predicate Covers(lib: Lib, a: Accept, step: int) {
    a.at / 30 - 1 <= step <= a.at / 30 + 1 && lib.trim(a.code) == lib.hotp(a.secret, step)
  }

  ghost predicate InTime(lib: Lib, a: Accept) {
    exists step :: Covers(lib, a, step)
  }

  ghost predicate Timely(lib: Lib, s: Sys) {
    forall i :: 0 <= i < |s.log| ==> InTime(lib, s.log[i])
  }

  lemma TimelyEntry(lib: Lib, a: Accept)
    requires Valid(lib, a.secret, a.code, a.at)
    ensures InTime(lib, a)
  {
    ValidAsStep(lib, a.secret, a.code, a.at);
    var step :| a.at / 30 - 1 <= step <= a.at / 30 + 1 && lib.trim(a.code) == lib.hotp(a.secret, step);
    assert Covers(lib, a, step);
  }

  lemma TimelyStep(lib: Lib, s: Sys, a: Act)
    requires Timely(lib, s)
    ensures Timely(lib, Step(lib, s, a))
  {
    var s' := Step(lib, s, a);
    forall i | 0 <= i < |s'.log| ensures InTime(lib, s'.log[i]) {
      if i < |s.log| {
        assert s'.log[i] == s.log[i];
      } else {
        TimelyEntry(lib, s'.log[i]);
      }
    }
  }

  lemma {:induction false} TimelyRun(lib: Lib, s: Sys, acts: seq<Act>)
    requires Timely(lib, s)
    ensures Timely(lib, Run(lib, s, acts))
    decreases |acts|
  {
    if acts != [] {
      TimelyStep(lib, s, acts[0]);
      TimelyRun(lib, Step(lib, s, acts[0]), acts[1..]);
    }
  }

  /** In every run every accepted code, whatever the path, is that of a step within one of the
      moment at which it was accepted. */
  lemma AcceptedInItsWindow(lib: Lib, acts: seq<Act>, i: nat) returns (step: int)
    requires i < |Run(lib, Start, acts).log|
    ensures var a := Run(lib, Start, acts).log[i];
            a.at / 30 - 1 <= step <= a.at / 30 + 1 && lib.trim(a.code) == lib.hotp(a.secret, step)
  {
    TimelyRun(lib, Start, acts);
    assert InTime(lib, Run(lib, Start, acts).log[i]);
    step :| Covers(lib, Run(lib, Start, acts).log[i], step);
  }

  // ---- Single use ----

  /** Of two acceptances under one secret, over all five paths, each is for a step in its own window,
      and one step can be behind both only if the first one enabled the secret, which marks nothing,
      or the two were spelled, and so marked, differently; and that takes a spelling that the
      library trims. */
  lemma TwiceForAStep(lib: Lib, acts: seq<Act>, i: nat, j: nat)
    requires var log := Run(lib, Start, acts).log;
             i < j < |log| && log[i].user == log[j].user && log[i].secret == log[j].secret
    ensures var log := Run(lib, Start, acts).log;
            && InTime(lib, log[i]) && InTime(lib, log[j])
            && ((exists step :: Covers(lib, log[i], step) && Covers(lib, log[j], step)) ==>
                  && (log[i].path.Enabling? || log[i].code != log[j].code)
                  && (log[i].path.Enabling? || lib.trim(log[i].code) != log[i].code || lib.trim(log[j].code) != log[j].code))
  {
    RunInv(lib, Start, acts);
    TimelyRun(lib, Start, acts);
  }

  /** In particular Validate and ValidateStepUp by themselves accept two codes under one secret only
      for two different steps, each in its own window, as long as what Validate makes of a code needs
      no trimming; and one spelling is accepted again only ninety seconds later, for a later step. */
  lemma NeverTwiceForAStep(lib: Lib, acts: seq<Act>, i: nat, j: nat) returns (first: int, second: int)
    requires forall c :: lib.trim(lib.norm(c)) == lib.norm(c)
    requires var log := Run(lib, Start, acts).log;
             && i < j < |log| && log[i].user == log[j].user && log[i].secret == log[j].secret
             && log[i].path.Validation? && log[j].path.Validation?
    ensures var (a, b) := (Run(lib, Start, acts).log[i], Run(lib, Start, acts).log[j]);
            && a.at / 30 - 1 <= first <= a.at / 30 + 1 && lib.trim(a.code) == lib.hotp(a.secret, first)
            && b.at / 30 - 1 <= second <= b.at / 30 + 1 && lib.trim(b.code) == lib.hotp(b.secret, second)
            && (forall step :: !(Covers(lib, a, step) && Covers(lib, b, step)))
            && (a.code == b.code ==>
                  && a.at + 90 <= b.at
                  && forall p, q :: Covers(lib, a, p) && Covers(lib, b, q) ==> p < q)
  {
    var log := Run(lib, Start, acts).log;
    NormalSpelling(lib, Start, acts);
    RunInv(lib, Start, acts);
    TwiceForAStep(lib, acts, i, j);
    first := AcceptedInItsWindow(lib, acts, i);
    second := AcceptedInItsWindow(lib, acts, j);
    if log[i].code == log[j].code {
      LaterSteps(log[i].at, log[j].at);
    }
  }

  lemma LaterSteps(at: nat, later: nat)
    requires at + 90 <= later
    ensures at / 30 + 1 < later / 30 - 1
  {
  }

  ghost predicate Spelled(lib: Lib, s: Sys) {
    forall i :: 0 <= i < |s.log| && s.log[i].path.Validation? ==> lib.trim(s.log[i].code) == s.log[i].code
  }

  lemma {:induction false} NormalSpelling(lib: Lib, s: Sys, acts: seq<Act>)
    requires Spelled(lib, s) && forall c :: lib.trim(lib.norm(c)) == lib.norm(c)
    ensures Spelled(lib, Run(lib, s, acts))
    decreases |acts|
  {
    if acts != [] {
      NormalSpelling(lib, Step(lib, s, acts[0]), acts[1..]);
    }
  }

  /** Validate refuses the code of a step in the window exactly when the same spelling was accepted
      for the same user, by any path but enabling, less than ninety seconds ago. */
  lemma RefusedOnlyAsReplay(lib: Lib, acts: seq<Act>, user: UserId, raw: string, step: int)
    requires var s := Run(lib, Start, acts);
             && user in s.secrets && lib.trim(lib.norm(raw)) == lib.hotp(s.secrets[user], step)
             && s.now / 30 - 1 <= step <= s.now / 30 + 1
    ensures var s := Run(lib, Start, acts);
            (exists i :: 0 <= i < |s.log| && !s.log[i].path.Enabling? && s.log[i].user == user && s.log[i].code == lib.norm(raw)
                         && s.now < s.log[i].at + 90)
            <==> Step(lib, s, Validates(user, raw)) == s
  {
    RunInv(lib, Start, acts);
    var s, m := Run(lib, Start, acts), Marker(user, lib.norm(raw));
    ValidatesExactly(lib, s, user, raw);
    if WasUsed(s, m) {
      assert EarnedBy(s.log, m, s.used[m]);
    } else {
      assert |Step(lib, s, Validates(user, raw)).log| == |s.log| + 1;
    }
  }

  // ---- Two runs in which a step's code passes twice ----

  lemma RunThree(lib: Lib, s: Sys, a: Act, b: Act, c: Act)
    ensures Run(lib, s, [a, b, c]) == Step(lib, Step(lib, Step(lib, s, a), b), c)
  {
    var s1 := Step(lib, s, a);
    var s2 := Step(lib, s1, b);
    assert [a, b, c][1..] == [b, c] && [b, c][1..] == [c] && [c][1..] == [];
    assert Run(lib, s2, [c]) == Run(lib, Step(lib, s2, c), []);
    assert Run(lib, s1, [b, c]) == Run(lib, s2, [c]);
  }

  /** The code that enabled the secret passes Validate at once. */
  lemma EnablingCodePassesAgain(lib: Lib, u: UserId, k: Secret) returns (acts: seq<Act>)
    requires var c := lib.hotp(k, 0); lib.norm(c) == c && lib.trim(c) == c
    ensures var log := Run(lib, Start, acts).log;
            && |log| == 2 && log[0] == Accept(Enabling, u, k, lib.hotp(k, 0), 0) && log[1] == Accept(Validation, u, k, lib.hotp(k, 0), 0)
  {
    var c := lib.hotp(k, 0);
    acts := [Setups(u, "", k), Enables(u, c), Validates(u, c)];
    RunThree(lib, Start, Setups(u, "", k), Enables(u, c), Validates(u, c));
    var s1 := Step(lib, Start, Setups(u, "", k));
    assert s1.pending == map[u := k];
    var s2 := Step(lib, s1, Enables(u, c));
    assert s2.secrets == map[u := k] && s2.log == [Accept(Enabling, u, k, c, 0)];
    assert Accepts(lib, s2, u, c);
  }

  /** A code that Setup or Disable took with blanks around it is marked with them, and passes
      Validate without them. */
  lemma BlanksPassAgain(lib: Lib, s: Sys, u: UserId, code: string, proposal: Secret)
    requires u in s.secrets && code != "" && Accepts(lib, s, u, code) && proposal !in s.issued
    requires var c := lib.trim(code); c != code && lib.trim(c) == c && lib.norm(c) == c && !WasUsed(s, Marker(u, c))
    ensures var s1 := Step(lib, s, Setups(u, code, proposal));
            var s2 := Step(lib, s1, Validates(u, lib.trim(code)));
            s2.log == s.log + [Accept(Setup, u, s.secrets[u], code, s.now), Accept(Validation, u, s.secrets[u], lib.trim(code), s.now)]
  {
    var s1 := Step(lib, s, Setups(u, code, proposal));
    assert Accepts(lib, s1, u, lib.trim(code));
  }
}
