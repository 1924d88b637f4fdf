/**
 * What the full schemas demand of a response, stated without plans or pruning: a route is a finite
 * walk through the schemas, across any number of `$ref` cycles, that ends at a category.
 */
module Obligations {
  import opened Schemas
  import opened Reachability
  import opened Plans

  datatype Edge = Follow | Conjunct(index: nat) | Field(field: string) | Each

  datatype Route = End | Go(edge: Edge, rest: Route)

  ghost predicate Leads(env: Env, s: Json, r: Route, c: string)
    decreases r
  {
    match r
    case End => false
    case Go(Follow, rest) =>
      RefOf(s).Some? && (
        var n := RefOf(s).value;
        if n in env.categories then rest == End && c == n
        else n in env.schemas && Leads(env, env.schemas[n], rest, c))
    case Go(Conjunct(i), rest) =>
      RefOf(s).None? && i < |Conjuncts(s)| && Leads(env, Conjuncts(s)[i], rest, c)
    case Go(Field(f), rest) =>
      RefOf(s).None? && f in Properties(s) && Leads(env, Properties(s)[f], rest, c)
    case Go(Each, rest) =>
      RefOf(s).None? && Element(s).Some? && Leads(env, Element(s).value, rest, c)
  }

  ghost predicate HasRoute(env: Env, s: Json) {
    exists r, c :: Leads(env, s, r, c)
  }

  /** The value obeys the route: objects, arrays and a string where it passes, required fields present. */
  ghost predicate Meets(env: Env, s: Json, r: Route, v: Json)
    decreases r
  {
    (v.Null? && Nullable(s)) ||
    match r
    case End => true
    case Go(Follow, rest) =>
      RefOf(s).Some? ==> (
        var n := RefOf(s).value;
        if n in env.categories then v.Str?
        else n in env.schemas ==> Meets(env, env.schemas[n], rest, v))
    case Go(Conjunct(i), rest) =>
      i < |Conjuncts(s)| ==> Meets(env, Conjuncts(s)[i], rest, v)
    case Go(Field(f), rest) =>
      f in Properties(s) ==> (
        && v.Obj?
        && if f in v.fields then Meets(env, Properties(s)[f], rest, v.fields[f]) else !Required(s, f))
    case Go(Each, rest) =>
      Element(s).Some? ==> (
        && v.Arr?
        && forall i :: 0 <= i < |v.items| ==> Meets(env, Element(s).value, rest, v.items[i]))
  }

  /** Every obligation of the schema holds of the value. */
  ghost predicate AllMet(env: Env, s: Json, v: Json) {
    forall r, c :: Leads(env, s, r, c) ==> Meets(env, s, r, v)
  }

  // ---- Routes and reference chains ----

  ghost function Routed(env: Env): set<string> {
    Reach(env, PlanRefs)
  }

  lemma {:induction false} RouteHits(env: Env, s: Json, r: Route, c: string)
    requires Leads(env, s, r, c)
    ensures Hits(Routed(env), s)
    decreases r
  {
    match r
    case Go(Follow, rest) =>
      var n := RefOf(s).value;
      assert n in PlanRefs(s);
      ReachHoldsCategories(env, PlanRefs);
      if n !in env.categories {
        RouteHits(env, env.schemas[n], rest, c);
        var m :| m in PlanRefs(env.schemas[n]) && m in Routed(env);
        ReachStep(env, PlanRefs, n, m);
      }
    case Go(Conjunct(i), rest) =>
      RouteHits(env, Conjuncts(s)[i], rest, c);
      HitsBody(Routed(env), s);
    case Go(Field(f), rest) =>
      RouteHits(env, Properties(s)[f], rest, c);
      HitsBody(Routed(env), s);
    case Go(Each, rest) =>
      RouteHits(env, Element(s).value, rest, c);
      HitsBody(Routed(env), s);
  }

  lemma {:induction false} RefExtendsRoute(env: Env, s: Json, n: string) returns (r: Route, c: string)
    requires n in PlanRefs(s)
    requires n in env.categories || (n in env.schemas && HasRoute(env, env.schemas[n]))
    ensures Leads(env, s, r, c)
    decreases s
  {
    if RefOf(s).Some? {
      if n in env.categories {
        r, c := Go(Follow, End), n;
      } else {
        var rest, d :| Leads(env, env.schemas[n], rest, d);
        r, c := Go(Follow, rest), d;
      }
    } else if i :| 0 <= i < |Conjuncts(s)| && n in PlanRefs(Conjuncts(s)[i]) {
      r, c := RefExtendsRoute(env, Conjuncts(s)[i], n);
      r := Go(Conjunct(i), r);
    } else if f :| f in Properties(s) && n in PlanRefs(Properties(s)[f]) {
      r, c := RefExtendsRoute(env, Properties(s)[f], n);
      r := Go(Field(f), r);
    } else {
      r, c := RefExtendsRoute(env, Element(s).value, n);
      r := Go(Each, r);
    }
  }

  lemma {:induction false} ChainGivesRoute(env: Env, p: seq<string>)
    requires Chain(env, PlanRefs, p) && p[0] !in env.categories
    ensures p[0] in env.schemas && HasRoute(env, env.schemas[p[0]])
    decreases |p|
  {
    if p[1] !in env.categories {
      assert Chain(env, PlanRefs, p[1..]);
      ChainGivesRoute(env, p[1..]);
    }
    var r, c := RefExtendsRoute(env, env.schemas[p[0]], p[1]);
  }

  /** A schema has an obligation exactly when it refers to a component with a reference chain to a category. */
  lemma RouteIffHits(env: Env, s: Json)
    ensures HasRoute(env, s) <==> Hits(Routed(env), s)
  {
    if HasRoute(env, s) {
      var r, c :| Leads(env, s, r, c);
      RouteHits(env, s, r, c);
    }
    if Hits(Routed(env), s) {
      var n :| n in PlanRefs(s) && n in Routed(env);
      if n !in env.categories {
        var p :| Chain(env, PlanRefs, p) && p[0] == n;
        ChainGivesRoute(env, p);
      }
      var r, c := RefExtendsRoute(env, s, n);
    }
  }

  lemma RoutedIffHasRoute(env: Env, n: string)
    requires n in env.schemas && n !in env.categories
    ensures n in Routed(env) <==> HasRoute(env, env.schemas[n])
  {
    RouteIffHits(env, env.schemas[n]);
    if n in Routed(env) {
      ReachDescends(env, PlanRefs, n);
      var m :| m in PlanRefs(env.schemas[n]) * Routed(env);
    } else if Hits(Routed(env), env.schemas[n]) {
      var m :| m in PlanRefs(env.schemas[n]) && m in Routed(env);
      ReachStep(env, PlanRefs, n, m);
    }
  }

  lemma {:induction false} NumberViolatesRoute(env: Env, s: Json, r: Route, c: string, x: real)
    requires Leads(env, s, r, c)
    ensures !Meets(env, s, r, Number(x))
    decreases r
  {
    match r
    case Go(Follow, rest) =>
      if RefOf(s).value !in env.categories {
        NumberViolatesRoute(env, env.schemas[RefOf(s).value], rest, c, x);
      }
    case Go(Conjunct(i), rest) => NumberViolatesRoute(env, Conjuncts(s)[i], rest, c, x);
    case _ =>
  }
}
