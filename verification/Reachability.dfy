/** The `reachable` fixpoint of `response_source`: which components lead to a category. */
module Reachability {
  import opened Schemas

  type Walk = Json -> set<string>

  /** A finite reference path: each name is a component that refers to the next, and the last is a category. */
  ghost predicate Chain(env: Env, walk: Walk, p: seq<string>) {
    && |p| > 0
    && if |p| == 1 then p[0] in env.categories
       else p[0] in env.schemas && p[1] in walk(env.schemas[p[0]]) && Chain(env, walk, p[1..])
  }

  ghost predicate HasChain(env: Env, walk: Walk, n: string) {
    exists p :: Chain(env, walk, p) && p[0] == n
  }

  ghost function Reach(env: Env, walk: Walk): set<string> {
    set n | n in env.categories.Keys + env.schemas.Keys && HasChain(env, walk, n)
  }

  /** A component that refers to a member is a member. */
  ghost predicate Closed(env: Env, walk: Walk, r: set<string>) {
    forall n :: n in env.schemas && walk(env.schemas[n]) * r != {} ==> n in r
  }

  lemma ChainHeadIsReached(env: Env, walk: Walk, p: seq<string>)
    requires Chain(env, walk, p)
    ensures p[0] in Reach(env, walk)
  {
    assert p[0] in env.categories.Keys + env.schemas.Keys;
  }

  lemma ReachHoldsCategories(env: Env, walk: Walk)
    ensures env.categories.Keys <= Reach(env, walk)
  {
    forall n | n in env.categories.Keys ensures n in Reach(env, walk) {
      assert Chain(env, walk, [n]) && [n][0] == n;
    }
  }

  lemma ReachStep(env: Env, walk: Walk, n: string, m: string)
    requires n in env.schemas && m in walk(env.schemas[n]) && m in Reach(env, walk)
    ensures n in Reach(env, walk)
  {
    var p :| Chain(env, walk, p) && p[0] == m;
    assert ([n] + p)[1..] == p;
    assert Chain(env, walk, [n] + p) && ([n] + p)[0] == n;
  }

  lemma ReachIsClosed(env: Env, walk: Walk)
    ensures Closed(env, walk, Reach(env, walk))
  {
    forall n | n in env.schemas && walk(env.schemas[n]) * Reach(env, walk) != {}
      ensures n in Reach(env, walk)
    {
      var m :| m in walk(env.schemas[n]) && m in Reach(env, walk);
      ReachStep(env, walk, n, m);
    }
  }

  lemma {:induction false} ChainStaysInside(env: Env, walk: Walk, p: seq<string>, r: set<string>)
    requires Chain(env, walk, p)
    requires env.categories.Keys <= r && Closed(env, walk, r)
    ensures p[0] in r
  {
    if |p| > 1 {
      ChainStaysInside(env, walk, p[1..], r);
      assert p[1] in walk(env.schemas[p[0]]) * r;
    }
  }

  lemma ReachIsLeast(env: Env, walk: Walk, r: set<string>)
    requires env.categories.Keys <= r && Closed(env, walk, r)
    ensures Reach(env, walk) <= r
  {
    forall n | n in Reach(env, walk) ensures n in r {
      var p :| Chain(env, walk, p) && p[0] == n;
      ChainStaysInside(env, walk, p, r);
    }
  }

  /** Every reachable component that is no category refers to a reachable component. */
  lemma ReachDescends(env: Env, walk: Walk, n: string)
    requires n in Reach(env, walk) && n !in env.categories
    ensures n in env.schemas && walk(env.schemas[n]) * Reach(env, walk) != {}
  {
    var p :| Chain(env, walk, p) && p[0] == n;
    var q := p[1..];
    assert Chain(env, walk, q) && q[0] == p[1];
    ChainHeadIsReached(env, walk, q);
    assert p[1] in walk(env.schemas[n]) * Reach(env, walk);
  }

  /** One pass of the loop: the components that refer to a member of `r`. */
  function Added(env: Env, r: set<string>): set<string> {
    set n | n in env.schemas && Refs(env.schemas[n]) * r != {}
  }

  lemma AddedStaysInReach(env: Env, r: set<string>)
    requires r <= Reach(env, Refs)
    ensures Added(env, r) <= Reach(env, Refs)
  {
    ReachIsClosed(env, Refs);
    forall n | n in Added(env, r) ensures n in Reach(env, Refs) {
      var m :| m in Refs(env.schemas[n]) * r;
      ReachStep(env, Refs, n, m);
    }
  }

  lemma FixpointIsReach(env: Env, r: set<string>)
    requires env.categories.Keys <= r <= Reach(env, Refs)
    requires Added(env, r) <= r
    ensures r == Reach(env, Refs)
  {
    forall n | n in env.schemas && Refs(env.schemas[n]) * r != {} ensures n in r {
      assert n in Added(env, r);
    }
    ReachIsLeast(env, Refs, r);
  }

  /**
   * The `while True` loop: grow the set by every component that refers to a member until nothing
   * is added. The components not yet reachable are its measure.
   */
  method ComputeReachable(env: Env) returns (reachable: set<string>)
    ensures reachable == Reach(env, Refs)
  {
    reachable := env.categories.Keys;
    ReachHoldsCategories(env, Refs);
    while true
      invariant env.categories.Keys <= reachable <= Reach(env, Refs)
      decreases env.schemas.Keys - reachable
    {
      var added := Added(env, reachable);
      AddedStaysInReach(env, reachable);
      if added <= reachable {
        break;
      }
      ghost var n :| n in added && n !in reachable;
      assert n in env.schemas.Keys - reachable;
      reachable := reachable + added;
    }
    FixpointIsReach(env, reachable);
  }
}
