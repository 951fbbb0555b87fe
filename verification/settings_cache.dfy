/** The settings cache under interleaved reads and updates (settings/cache.go,
    settings/handler.go). */
module SettingsCache {
  import opened Names

  type Name = string

  /** One minute, in seconds. */
  const CACHE_TTL: nat := 60

  /** A cached value; fetch, the moments (as positions in the history) when the fetch that
      brought it began, read the row and filled the cache, is history. */
  datatype Entry = Entry(value: string, expires: nat, fetch: Fetch)

  datatype Fetch = Fetch(began: nat, read: nat, filled: nat)

  /** A read of name that missed: not yet at the database, or back with what it found. */
  datatype Reader = Asking(name: Name, began: nat) | Holding(name: Name, value: string, began: nat, read: nat)

  /** The database and the clock at one moment. */
  datatype Moment = Moment(db: map<Name, string>, at: nat)

  /** past has one element for every step so far, so the present is moment |past|. */
  datatype Sys = Sys(db: map<Name, string>, now: nat, cache: map<Name, Entry>, readers: map<nat, Reader>, past: seq<Moment>)

  datatype Act =
    | Look(p: nat, name: Name)
    | Ask(p: nat)
    | Fill(p: nat)
    | Set(name: Name, value: string)
    | Invalidate(name: Name)
    | Pass(seconds: nat)

  predicate Serves(s: Sys, name: Name) {
    name in s.cache && s.now < s.cache[name].expires
  }

  function Change(s: Sys, a: Act): Sys {
    match a
    case Look(p, name) =>
      if p in s.readers || Serves(s, name) then s else s.(readers := s.readers[p := Asking(name, |s.past|)])
    case Ask(p) =>
      if p !in s.readers || !s.readers[p].Asking? then s
      else
        var r := s.readers[p];
        if r.name in s.db then s.(readers := s.readers[p := Holding(r.name, s.db[r.name], r.began, |s.past|)])
        else s.(readers := s.readers - {p})
    case Fill(p) =>
      if p !in s.readers || !s.readers[p].Holding? then s
      else
        var r := s.readers[p];
        s.(cache := s.cache[r.name := Entry(r.value, s.now + CACHE_TTL, Fetch(r.began, r.read, |s.past|))],
           readers := s.readers - {p})
    case Set(name, value) => s.(db := s.db[name := value])
    case Invalidate(name) => s.(cache := s.cache - {name})
    case Pass(d) => s.(now := s.now + d)
  }

  function Step(s: Sys, a: Act): Sys {
    Change(s, a).(past := s.past + [Moment(s.db, s.now)])
  }

  function Run(s: Sys, acts: seq<Act>): Sys
    decreases |acts|
  {
    if acts == [] then s else Run(Step(s, acts[0]), acts[1..])
  }

  const Start := Sys(map[], 0, map[], map[], [])

  /** Moment i, the present included. */
  function MomentAt(s: Sys, i: nat): Moment
    requires i <= |s.past|
  {
    if i < |s.past| then s.past[i] else Moment(s.db, s.now)
  }

  ghost predicate StoredAt(s: Sys, i: nat, name: Name, value: string) {
    i <= |s.past| && name in MomentAt(s, i).db && MomentAt(s, i).db[name] == value
  }

  ghost predicate EntryOk(s: Sys, name: Name)
    requires name in s.cache
  {
    var e := s.cache[name];
    && e.fetch.began <= e.fetch.read <= e.fetch.filled <= |s.past|
    && StoredAt(s, e.fetch.read, name, e.value)
    && e.expires == MomentAt(s, e.fetch.filled).at + CACHE_TTL
  }

  ghost predicate ReaderOk(s: Sys, p: nat)
    requires p in s.readers
  {
    var r := s.readers[p];
    && r.began <= |s.past|
    && (r.Holding? ==> r.began <= r.read && StoredAt(s, r.read, r.name, r.value))
  }

  ghost predicate Inv(s: Sys) {
    && (forall name :: name in s.cache ==> EntryOk(s, name))
    && (forall p :: p in s.readers ==> ReaderOk(s, p))
  }

  /** The past does not change. */
  lemma MomentsStay(s: Sys, a: Act, i: nat)
    requires i <= |s.past|
    ensures MomentAt(Step(s, a), i) == MomentAt(s, i)
  {
  }

  lemma EntriesStay(s: Sys, a: Act)
    requires Inv(s)
    ensures forall name :: name in Step(s, a).cache ==> EntryOk(Step(s, a), name)
  {
    var s' := Step(s, a);
    forall i: nat | i <= |s.past| ensures MomentAt(s', i) == MomentAt(s, i) {
      MomentsStay(s, a, i);
    }
    forall name | name in s'.cache ensures EntryOk(s', name) {
      if name in s.cache { assert EntryOk(s, name); }
      if a.Fill? && a.p in s.readers { assert ReaderOk(s, a.p); }
    }
  }

  lemma ReadersStay(s: Sys, a: Act)
    requires Inv(s)
    ensures forall p :: p in Step(s, a).readers ==> ReaderOk(Step(s, a), p)
  {
    var s' := Step(s, a);
    forall i: nat | i <= |s.past| ensures MomentAt(s', i) == MomentAt(s, i) {
      MomentsStay(s, a, i);
    }
    forall p | p in s'.readers ensures ReaderOk(s', p) {
      if p in s.readers { assert ReaderOk(s, p); }
    }
  }

  lemma {:induction false} RunInv(s: Sys, acts: seq<Act>)
    requires Inv(s)
    ensures Inv(Run(s, acts))
    decreases |acts|
  {
    if acts != [] {
      EntriesStay(s, acts[0]);
      ReadersStay(s, acts[0]);
      RunInv(Step(s, acts[0]), acts[1..]);
    }
  }

  /** In every interleaving a value served from the cache was the stored value at some moment
      of the fetch that brought it, and that fetch ended less than a minute ago. */
  lemma StalenessIsBounded(acts: seq<Act>, name: Name)
    requires Serves(Run(Start, acts), name)
    ensures var s := Run(Start, acts);
            var e := s.cache[name];
            && e.fetch.began <= e.fetch.read <= e.fetch.filled <= |s.past|
            && name in MomentAt(s, e.fetch.read).db && MomentAt(s, e.fetch.read).db[name] == e.value
            && s.now < MomentAt(s, e.fetch.filled).at + 60
  {
    RunInv(Start, acts);
    assert EntryOk(Run(Start, acts), name);
  }

  // ---- What an update guarantees ----

  /** A reader has already read a value of name that is no longer the stored one. */
  predicate HoldsStale(s: Sys, p: nat, name: Name) {
    p in s.readers && s.readers[p].Holding? && s.readers[p].name == name
    && !(name in s.db && s.db[name] == s.readers[p].value)
  }

  ghost predicate Current(s: Sys, name: Name, value: string) {
    && name in s.db && s.db[name] == value
    && (name in s.cache ==> s.cache[name].value == value)
    && forall p :: !HoldsStale(s, p, name)
  }

  lemma StaysCurrent(s: Sys, a: Act, name: Name, value: string)
    requires Current(s, name, value) && !(a.Set? && a.name == name)
    ensures Current(Step(s, a), name, value)
  {
    forall p ensures !HoldsStale(Step(s, a), p, name) {
      assert !HoldsStale(s, p, name);
    }
    if a.Fill? {
      assert !HoldsStale(s, a.p, name);
    }
  }

  predicate NeverSets(acts: seq<Act>, name: Name) {
    forall i :: 0 <= i < |acts| ==> !(acts[i].Set? && acts[i].name == name)
  }

  lemma {:induction false} RunsCurrent(s: Sys, acts: seq<Act>, name: Name, value: string)
    requires Current(s, name, value) && NeverSets(acts, name)
    ensures Current(Run(s, acts), name, value)
    decreases |acts|
  {
    if acts != [] {
      StaysCurrent(s, acts[0], name, value);
      RunsCurrent(Step(s, acts[0]), acts[1..], name, value);
    }
  }

  /** Once an update has stored value and dropped the entry, the cache can come to hold
      anything else, before the next update, exactly when a read that missed earlier is still
      under way with an older value in its hands. */
  lemma UpdateTakesEffect(s: Sys, name: Name)
    requires name in s.db
    ensures var s' := Step(s, Invalidate(name));
            (exists acts :: NeverSets(acts, name) && name in Run(s', acts).cache && Run(s', acts).cache[name].value != s.db[name])
            <==> (exists p :: HoldsStale(s, p, name))
  {
    var s' := Step(s, Invalidate(name));
    if p :| HoldsStale(s, p, name) {
      var acts := [Fill(p)];
      assert Run(Step(s', Fill(p)), acts[1..]) == Step(s', Fill(p));
      assert NeverSets(acts, name) && name in Run(s', acts).cache && Run(s', acts).cache[name].value != s.db[name];
    } else {
      forall p ensures !HoldsStale(s', p, name) {
        assert !HoldsStale(s, p, name);
      }
      forall acts | NeverSets(acts, name) ensures Current(Run(s', acts), name, s.db[name]) {
        RunsCurrent(s', acts, name, s.db[name]);
      }
    }
  }

  // ---- The getters, one call at a time ----

  datatype Cached = Cached(value: string, expires: nat)

  /** What a read of name finds: the cached value while it lasts, then the stored one. */
  function Found(db: map<Name, string>, vals: map<Name, Cached>, now: nat, name: Name): Option<string> {
    if name in vals && now < vals[name].expires then Some(vals[name].value)
    else if name in db then Some(db[name])
    else None
  }

  function Filled(db: map<Name, string>, vals: map<Name, Cached>, now: nat, name: Name): map<Name, Cached> {
    if (name in vals && now < vals[name].expires) || name !in db then vals
    else vals[name := Cached(db[name], now + CACHE_TTL)]
  }

  // ---- A getter or an update alone is its steps ----

  function Vals(cache: map<Name, Entry>): map<Name, Cached> {
    map name | name in cache :: Cached(cache[name].value, cache[name].expires)
  }

  /** What a getter should leave: the cache it fills and nothing else, serving what it answers. */
  ghost predicate Got(s: Sys, s': Sys, name: Name) {
    && Vals(s'.cache) == Filled(s.db, Vals(s.cache), s.now, name)
    && Found(s.db, Vals(s.cache), s.now, name) == (if Serves(s', name) then Some(s'.cache[name].value) else None)
    && s'.db == s.db && s'.now == s.now && s'.readers == s.readers
  }

  lemma MissIsFilled(s: Sys, p: nat, name: Name)
    requires p !in s.readers && !Serves(s, name) && name in s.db
    ensures Got(s, Step(Step(Step(s, Look(p, name)), Ask(p)), Fill(p)), name)
  {
    var s1 := Step(s, Look(p, name));
    var s2 := Step(s1, Ask(p));
    assert s2.readers[p] == Holding(name, s.db[name], |s.past|, |s1.past|);
    var s3 := Step(s2, Fill(p));
    assert s3.readers == s.readers;
    assert s3.cache == s.cache[name := s3.cache[name]];
    assert Vals(s3.cache) == Vals(s.cache)[name := Cached(s.db[name], s.now + CACHE_TTL)];
  }

  lemma NothingFilled(s: Sys, p: nat, name: Name)
    requires p !in s.readers && (Serves(s, name) || name !in s.db)
    ensures Got(s, Step(Step(Step(s, Look(p, name)), Ask(p)), Fill(p)), name)
  {
    var s1 := Step(s, Look(p, name));
    assert s1.readers - {p} == s.readers;
  }

  /** A getter run alone is Look, Ask and Fill: it leaves the cache those leave, answers with what
      the cache then serves or nothing, and leaves no reader behind. */
  lemma GetterIsItsSteps(s: Sys, p: nat, name: Name)
    requires p !in s.readers
    ensures Got(s, Run(s, [Look(p, name), Ask(p), Fill(p)]), name)
  {
    RunThree(s, Look(p, name), Ask(p), Fill(p));
    if Serves(s, name) || name !in s.db {
      NothingFilled(s, p, name);
    } else {
      MissIsFilled(s, p, name);
    }
  }

  lemma RunThree(s: Sys, a: Act, b: Act, c: Act)
    ensures Run(s, [a, b, c]) == Step(Step(Step(s, a), b), c)
  {
    RunTwo(Step(s, a), b, c);
    assert [a, b, c][1..] == [b, c];
  }

  lemma RunTwo(s: Sys, a: Act, b: Act)
    ensures Run(s, [a, b]) == Step(Step(s, a), b)
  {
    var s1 := Step(s, a);
    assert [a, b][1..] == [b] && [b][1..] == [];
    assert Run(s1, [b]) == Run(Step(s1, b), []);
  }

  /** The handler's update run alone is Set and Invalidate. */
  lemma UpdateIsItsSteps(s: Sys, name: Name, value: string)
    ensures var s' := Run(s, [Set(name, value), Invalidate(name)]);
            s'.db == s.db[name := value] && Vals(s'.cache) == Vals(s.cache) - {name} && s'.readers == s.readers
  {
    RunTwo(s, Set(name, value), Invalidate(name));
  }

  /** What a typed getter makes of the string, given strconv's parser. */
  function Parsed<T>(found: Option<string>, parse: string -> Option<T>, default: T): T {
    if found.None? then default
    else match parse(found.value)
      case None => default
      case Some(v) => v
  }

  class Cache {
    var db: map<Name, string>
    var now: nat
    var vals: map<Name, Cached>

    constructor (db: map<Name, string>, now: nat)
      ensures this.db == db && this.now == now && vals == map[]
    {
      this.db, this.now, this.vals := db, now, map[];
    }

    method GetString(name: Name, default: string) returns (r: string)
      modifies this`vals
      ensures r == Parsed(Found(db, old(vals), now, name), s => Some(s), default)
      ensures vals == Filled(db, old(vals), now, name)
      // on the two maps
      ensures var s := if name in old(vals) && now < old(vals)[name].expires then Some(old(vals)[name].value)
                       else if name in db then Some(db[name]) else None;
              r == if s.Some? then s.value else default
      ensures vals == if name !in db || (name in old(vals) && now < old(vals)[name].expires) then old(vals)
                      else old(vals)[name := Cached(db[name], now + 60)]
    {
      if name in vals && now < vals[name].expires {
        return vals[name].value;
      }
      if name !in db {
        return default;
      }
      var val := db[name];
      vals := vals[name := Cached(val, now + CACHE_TTL)];
      r := val;
    }

    method GetInt(name: Name, atoi: string -> Option<int>, default: int) returns (r: int)
      modifies this`vals
      ensures r == Parsed(Found(db, old(vals), now, name), atoi, default)
      ensures vals == Filled(db, old(vals), now, name)
      // on the two maps
      ensures var s := if name in old(vals) && now < old(vals)[name].expires then Some(old(vals)[name].value)
                       else if name in db then Some(db[name]) else None;
              r == if s.Some? && atoi(s.value).Some? then atoi(s.value).value else default
      ensures vals == if name !in db || (name in old(vals) && now < old(vals)[name].expires) then old(vals)
                      else old(vals)[name := Cached(db[name], now + 60)]
    {
      if name in vals && now < vals[name].expires {
        var n := atoi(vals[name].value);
        return if n.Some? then n.value else default;
      }
      if name !in db {
        return default;
      }
      var val := db[name];
      vals := vals[name := Cached(val, now + CACHE_TTL)];
      var n := atoi(val);
      r := if n.Some? then n.value else default;
    }

    method GetBool(name: Name, parseBool: string -> Option<bool>, default: bool) returns (r: bool)
      modifies this`vals
      ensures r == Parsed(Found(db, old(vals), now, name), parseBool, default)
      ensures vals == Filled(db, old(vals), now, name)
      // on the two maps
      ensures var s := if name in old(vals) && now < old(vals)[name].expires then Some(old(vals)[name].value)
                       else if name in db then Some(db[name]) else None;
              r == if s.Some? && parseBool(s.value).Some? then parseBool(s.value).value else default
      ensures vals == if name !in db || (name in old(vals) && now < old(vals)[name].expires) then old(vals)
                      else old(vals)[name := Cached(db[name], now + 60)]
    {
      if name in vals && now < vals[name].expires {
        var b := parseBool(vals[name].value);
        return if b.Some? then b.value else default;
      }
      if name !in db {
        return default;
      }
      var val := db[name];
      vals := vals[name := Cached(val, now + CACHE_TTL)];
      var b := parseBool(val);
      r := if b.Some? then b.value else default;
    }

    /** The settings handler's update of one key: store, then invalidate. */
    method Update(name: Name, value: string)
      modifies this`db, this`vals
      ensures db == old(db)[name := value] && vals == old(vals) - {name}
      ensures Found(db, vals, now, name) == Some(value)
      ensures forall n :: n != name ==> Found(db, vals, now, n) == Found(old(db), old(vals), now, n)
    {
      db := db[name := value];
      vals := vals - {name};
    }
  }
}
