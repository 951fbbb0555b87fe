/** Scope narrowing in ExchangeRefreshToken (oidc/service.go). */
module Scopes {
  import opened Names

  /** The requested scopes that the grant holds, in the order requested. */
  function Kept(granted: seq<Scope>, requested: seq<Scope>): seq<Scope> {
    if requested == [] then []
    else
      var init := Kept(granted, requested[..|requested| - 1]);
      if requested[|requested| - 1] in granted then init + [requested[|requested| - 1]] else init
  }

  /** A request that keeps nothing falls back to the whole grant. */
  function Narrow(granted: seq<Scope>, requested: seq<Scope>): seq<Scope> {
    var kept := Kept(granted, requested);
    if kept == [] then granted else kept
  }

  lemma {:induction false} KeptIsIntersection(granted: seq<Scope>, requested: seq<Scope>)
    ensures forall s :: s in Kept(granted, requested) <==> s in granted && s in requested
  {
    if requested != [] {
      KeptIsIntersection(granted, requested[..|requested| - 1]);
      assert requested == requested[..|requested| - 1] + [requested[|requested| - 1]];
    }
  }

  /** The order asked for is kept, and so is a scope asked for twice: joining two requests joins what
      they keep, and a request for one scope keeps it if it is granted. */
  lemma {:induction false} KeptInOrder(granted: seq<Scope>, first: seq<Scope>, rest: seq<Scope>, s: Scope)
    ensures Kept(granted, first + rest) == Kept(granted, first) + Kept(granted, rest)
    ensures Kept(granted, [s]) == if s in granted then [s] else []
    ensures Kept(granted, []) == []
    decreases |rest|
  {
    assert [s][..0] == [];
    if rest == [] {
      assert first + rest == first;
    } else {
      var init := rest[..|rest| - 1];
      KeptInOrder(granted, first, init, s);
      assert (first + rest)[..|first + rest| - 1] == first + init;
    }
  }

  /** Narrowing never widens: it is the intersection with the grant, or the grant itself
      exactly when that intersection is empty. */
  lemma NarrowNeverWidens(granted: seq<Scope>, requested: seq<Scope>)
    ensures forall s :: s in Narrow(granted, requested) ==> s in granted
    ensures (exists s :: s in granted && s in requested) ==>
              && Narrow(granted, requested) == Kept(granted, requested)
              && forall s :: s in Narrow(granted, requested) <==> s in granted && s in requested
    ensures (forall s :: s in granted ==> s !in requested) ==> Narrow(granted, requested) == granted
  {
    KeptIsIntersection(granted, requested);
    if Kept(granted, requested) != [] {
      assert Kept(granted, requested)[0] in Kept(granted, requested);
    }
  }

  method NarrowScopes(granted: seq<Scope>, requested: seq<Scope>) returns (scopes: seq<Scope>)
    ensures scopes == Narrow(granted, requested)
  {
    scopes := granted;
    if |requested| > 0 {
      var allowed: set<Scope> := {};
      for i := 0 to |granted|
        invariant forall s :: s in allowed <==> s in granted[..i]
      {
        allowed := allowed + {granted[i]};
      }
      var valid: seq<Scope> := [];
      for i := 0 to |requested|
        invariant valid == Kept(granted, requested[..i])
      {
        assert requested[..i + 1][..i] == requested[..i];
        if requested[i] in allowed {
          valid := valid + [requested[i]];
        }
      }
      assert requested[..|requested|] == requested;
      if |valid| > 0 {
        scopes := valid;
      }
    }
  }
}
