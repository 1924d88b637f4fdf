/** The compiled plan and the full schemas make the same demands: pruning loses no check and adds none. */
module PlanCorrectness {
  import opened Prelude
  import opened Schemas
  import opened Plans
  import opened Obligations
  import opened ResponseCheck

  // ---- What a compiled document provides ----

  /** A compiled document: the reachable set, the planner for it, and the generated definitions. */
  datatype Compiled = Compiled(env: Env, reach: set<string>, plan: Json -> Planned, defs: Definitions)

  ghost predicate Planned1(k: Compiled, s: Json) {
    k.plan(s).Planned? && k.plan(s).node.Some?
  }

  ghost function BindingsOf(k: Compiled, s: Json): map<string, Binding> {
    map f | f in Properties(s) && Planned1(k, Properties(s)[f]) ::
      Binding(Required(s, f), k.plan(Properties(s)[f]).node.value)
  }

  /** `node` is one of the nodes collected for `s`. */
  ghost predicate IsPart(k: Compiled, s: Json, node: Node) {
    || (exists i :: 0 <= i < |Conjuncts(s)| && k.plan(Conjuncts(s)[i]) == Planned(Some(node)))
    || (BindingsOf(k, s) != map[] && node == Props(BindingsOf(k, s), false))
    || (Element(s).Some? && Planned1(k, Element(s).value)
        && node == Items(k.plan(Element(s).value).node.value, false))
  }

  ghost predicate BodyLaw(k: Compiled, s: Json, nodes: seq<Node>) {
    && (forall node :: node in nodes <==> IsPart(k, s, node))
    && k.plan(s) == Planned(Collapse(nodes, Nullable(s)))
    && (forall i :: 0 <= i < |Conjuncts(s)| ==> k.plan(Conjuncts(s)[i]).Planned?)
    && (forall f :: f in Properties(s) ==> k.plan(Properties(s)[f]).Planned?)
    && (Element(s).Some? ==> k.plan(Element(s).value).Planned?)
  }

  /** One step of the planner, and when it yields a node. */
  ghost predicate PlanLaw(k: Compiled, s: Json) {
    k.plan(s).Planned? ==> (
      && (k.plan(s).node.Some? <==> Hits(k.reach, s))
      && match RefOf(s)
         case Some(n) => k.plan(s).node == if n in k.reach then Some(Ref(n, Nullable(s))) else None
         case None => exists nodes :: BodyLaw(k, s, nodes))
  }

  ghost predicate DefsLaw(k: Compiled) {
    && k.defs.Keys == k.reach
    && forall n :: n in k.reach ==>
      if n in k.env.categories then k.defs[n] == Some(Category(n, false))
      else n in k.env.schemas && k.plan(k.env.schemas[n]) == Planned(k.defs[n])
  }

  ghost predicate Lawful(k: Compiled) {
    && Named(k.env)
    && k.env.categories.Keys <= k.reach
    && DefsLaw(k)
    && forall s :: PlanLaw(k, s)
  }

  // ---- Collapse ----

  /** An accepted value passes every node that was collapsed. */
  lemma CollapsePasses(k: Compiled, nodes: seq<Node>, nullable: bool, node: Node, v: Json, budget: nat)
    returns (w: Json, b: nat)
    requires node in nodes && !(v.Null? && nullable)
    requires Check(k.defs, k.env.categories, Collapse(nodes, nullable).value, v, budget).Some?
    ensures SameShape(v, w) && b <= budget && Check(k.defs, k.env.categories, node, w, b).Some?
  {
    if |nodes| == 1 {
      w, b := v, budget;
      SameShapeReflexive(v);
    } else {
      var j :| 0 <= j < |nodes| && nodes[j] == node;
      b := budget - 1;
      w := AllPasses(k.defs, k.env.categories, nodes, v, b, j);
    }
  }

  /** A value rejected for another reason than depth fails one of the nodes that were collapsed. */
  lemma CollapseFails(k: Compiled, nodes: seq<Node>, nullable: bool, v: Json, budget: nat)
    returns (node: Node, w: Json, b: nat)
    requires nodes != []
    requires Check(k.defs, k.env.categories, Collapse(nodes, nullable).value, v, budget).None?
    requires !TooDeep(k.defs, Collapse(nodes, nullable).value, v, budget)
    ensures !(v.Null? && nullable)
    ensures node in nodes && SameShape(v, w) && b <= budget
    ensures Check(k.defs, k.env.categories, node, w, b).None? && !TooDeep(k.defs, node, w, b)
  {
    if |nodes| == 1 {
      node, w, b := nodes[0], v, budget;
      SameShapeReflexive(v);
    } else {
      b := budget - 1;
      var j, u := AllFails(k.defs, k.env.categories, nodes, v, b);
      node, w := nodes[j], u;
      TooDeepByShape(k.defs, node, v, w, b);
    }
  }

  lemma {:induction false} MeetsByShape(env: Env, s: Json, r: Route, v: Json, w: Json)
    requires SameShape(v, w)
    ensures Meets(env, s, r, v) <==> Meets(env, s, r, w)
    decreases r
  {
    match r
    case End =>
    case Go(Follow, rest) =>
      if RefOf(s).Some? && RefOf(s).value in env.schemas {
        MeetsByShape(env, env.schemas[RefOf(s).value], rest, v, w);
      }
    case Go(Conjunct(i), rest) =>
      if i < |Conjuncts(s)| { MeetsByShape(env, Conjuncts(s)[i], rest, v, w); }
    case Go(Field(f), rest) =>
      if f in Properties(s) && v.Obj? && f in v.fields {
        MeetsByShape(env, Properties(s)[f], rest, v.fields[f], w.fields[f]);
      }
    case Go(Each, rest) =>
      if Element(s).Some? && v.Arr? {
        forall i | 0 <= i < |v.items|
          ensures Meets(env, Element(s).value, rest, v.items[i]) <==> Meets(env, Element(s).value, rest, w.items[i])
        {
          MeetsByShape(env, Element(s).value, rest, v.items[i], w.items[i]);
        }
      }
  }

  // ---- No check is lost ----

  /** A schema with a route is planned, provided the routed components are all reachable. */
  lemma RouteIsPlanned(k: Compiled, s: Json, r: Route, c: string)
    requires Lawful(k) && Routed(k.env) <= k.reach
    requires Leads(k.env, s, r, c) && k.plan(s).Planned?
    ensures Planned1(k, s)
  {
    RouteHits(k.env, s, r, c);
    var n :| n in PlanRefs(s) && n in Routed(k.env);
    assert n in k.reach;
    assert PlanLaw(k, s);
  }

  ghost predicate Accepts(k: Compiled, s: Json, v: Json, budget: nat) {
    Planned1(k, s) && Check(k.defs, k.env.categories, k.plan(s).node.value, v, budget).Some?
  }

  lemma {:induction false} AcceptedMeets(k: Compiled, s: Json, v: Json, budget: nat, r: Route, c: string)
    requires Lawful(k) && Routed(k.env) <= k.reach
    requires Accepts(k, s, v, budget) && Leads(k.env, s, r, c)
    ensures Meets(k.env, s, r, v)
    decreases r, 0
  {
    assert PlanLaw(k, s);
    if !(v.Null? && Nullable(s)) {
      if RefOf(s).Some? {
        var n := RefOf(s).value;
        assert Check(k.defs, k.env.categories, k.defs[n].value, v, budget - 1).Some?;
        if n !in k.env.categories {
          AcceptedMeets(k, k.env.schemas[n], v, budget - 1, r.rest, c);
        }
      } else {
        match r.edge
        case Conjunct(i) => AcceptedMeetsConjunct(k, s, v, budget, i, r.rest, c);
        case Field(f) => AcceptedMeetsField(k, s, v, budget, f, r.rest, c);
        case Each => AcceptedMeetsEach(k, s, v, budget, r.rest, c);
      }
    }
  }

  /** An accepted value passes every part of the schema. */
  lemma AcceptedPassesPart(k: Compiled, s: Json, node: Node, v: Json, budget: nat) returns (w: Json, b: nat)
    requires Lawful(k) && Accepts(k, s, v, budget) && RefOf(s).None?
    requires !(v.Null? && Nullable(s)) && IsPart(k, s, node)
    ensures SameShape(v, w) && b <= budget && Check(k.defs, k.env.categories, node, w, b).Some?
  {
    assert PlanLaw(k, s);
    var nodes :| BodyLaw(k, s, nodes);
    w, b := CollapsePasses(k, nodes, Nullable(s), node, v, budget);
  }

  lemma ChildIsPlanned(k: Compiled, s: Json, edge: Edge, rest: Route, c: string) returns (child: Json)
    requires Lawful(k) && Routed(k.env) <= k.reach
    requires RefOf(s).None? && Planned1(k, s) && Leads(k.env, s, Go(edge, rest), c)
    ensures Planned1(k, child) && Leads(k.env, child, rest, c)
    ensures edge.Conjunct? ==> child == Conjuncts(s)[edge.index]
    ensures edge.Field? ==> child == Properties(s)[edge.field]
    ensures edge.Each? ==> child == Element(s).value
  {
    assert PlanLaw(k, s);
    var nodes :| BodyLaw(k, s, nodes);
    child := match edge
      case Conjunct(i) => Conjuncts(s)[i]
      case Field(f) => Properties(s)[f]
      case Each => Element(s).value;
    RouteIsPlanned(k, child, rest, c);
  }

  lemma {:induction false} AcceptedMeetsConjunct(k: Compiled, s: Json, v: Json, budget: nat, i: nat, rest: Route, c: string)
    requires Lawful(k) && Routed(k.env) <= k.reach
    requires Accepts(k, s, v, budget) && RefOf(s).None? && Leads(k.env, s, Go(Conjunct(i), rest), c)
    requires !(v.Null? && Nullable(s))
    ensures Meets(k.env, s, Go(Conjunct(i), rest), v)
    decreases rest, 1
  {
    var child := ChildIsPlanned(k, s, Conjunct(i), rest, c);
    var node := k.plan(child).node.value;
    assert k.plan(Conjuncts(s)[i]) == Planned(Some(node));
    var w, b := AcceptedPassesPart(k, s, node, v, budget);
    AcceptedMeets(k, child, w, b, rest, c);
    MeetsByShape(k.env, child, rest, v, w);
  }

  lemma {:induction false} AcceptedMeetsField(k: Compiled, s: Json, v: Json, budget: nat, f: string, rest: Route, c: string)
    requires Lawful(k) && Routed(k.env) <= k.reach
    requires Accepts(k, s, v, budget) && RefOf(s).None? && Leads(k.env, s, Go(Field(f), rest), c)
    requires !(v.Null? && Nullable(s))
    ensures Meets(k.env, s, Go(Field(f), rest), v)
    decreases rest, 1
  {
    var child := ChildIsPlanned(k, s, Field(f), rest, c);
    assert f in BindingsOf(k, s);
    var w, b := AcceptedPassesPart(k, s, Props(BindingsOf(k, s), false), v, budget);
    if f in v.fields {
      assert Accepts(k, child, w.fields[f], b - 1);
      AcceptedMeets(k, child, w.fields[f], b - 1, rest, c);
      MeetsByShape(k.env, child, rest, v.fields[f], w.fields[f]);
    }
  }

  lemma {:induction false} AcceptedMeetsEach(k: Compiled, s: Json, v: Json, budget: nat, rest: Route, c: string)
    requires Lawful(k) && Routed(k.env) <= k.reach
    requires Accepts(k, s, v, budget) && RefOf(s).None? && Leads(k.env, s, Go(Each, rest), c)
    requires !(v.Null? && Nullable(s))
    ensures Meets(k.env, s, Go(Each, rest), v)
    decreases rest, 1
  {
    var child := ChildIsPlanned(k, s, Each, rest, c);
    var w, b := AcceptedPassesPart(k, s, Items(k.plan(child).node.value, false), v, budget);
    forall i | 0 <= i < |v.items| ensures Meets(k.env, child, rest, v.items[i]) {
      assert Accepts(k, child, w.items[i], b - 1);
      AcceptedMeets(k, child, w.items[i], b - 1, rest, c);
      MeetsByShape(k.env, child, rest, v.items[i], w.items[i]);
    }
  }

  // ---- No check is invented ----

  /** The plan rejects the value, and not because some walk is too deep. */
  ghost predicate Rejects(k: Compiled, s: Json, v: Json, budget: nat) {
    && Planned1(k, s)
    && Check(k.defs, k.env.categories, k.plan(s).node.value, v, budget).None?
    && !TooDeep(k.defs, k.plan(s).node.value, v, budget)
  }

  lemma PlannedHasRoute(k: Compiled, s: Json) returns (r: Route, c: string)
    requires Lawful(k) && k.reach == Routed(k.env) && Planned1(k, s)
    ensures Leads(k.env, s, r, c)
  {
    assert PlanLaw(k, s);
    RouteIffHits(k.env, s);
    r, c :| Leads(k.env, s, r, c);
  }

  lemma RejectedRefStep(k: Compiled, s: Json, v: Json, budget: nat)
    requires Lawful(k) && k.reach == Routed(k.env)
    requires Rejects(k, s, v, budget) && RefOf(s).Some?
    ensures !(v.Null? && Nullable(s)) && budget > 0
    ensures RefOf(s).value in k.env.categories ==> !v.Str?
    ensures RefOf(s).value !in k.env.categories ==>
      && RefOf(s).value in k.env.schemas
      && Rejects(k, k.env.schemas[RefOf(s).value], v, budget - 1)
  {
    assert PlanLaw(k, s);
    var n := RefOf(s).value;
    assert n in k.reach;
    assert n in k.env.categories.Keys + k.env.schemas.Keys;
    assert k.plan(s).node == Some(Ref(n, Nullable(s)));
    if k.defs[n].Some? {
      assert !TooDeep(k.defs, k.defs[n].value, v, budget - 1);
      assert Check(k.defs, k.env.categories, k.defs[n].value, v, budget - 1).None?;
    }
    if n !in k.env.categories {
      var target := k.env.schemas[n];
      RoutedIffHasRoute(k.env, n);
      var r0, c0 :| Leads(k.env, target, r0, c0);
      RouteIsPlanned(k, target, r0, c0);
      assert k.defs[n] == k.plan(target).node;
    }
  }

  lemma RejectedBodyStep(k: Compiled, s: Json, v: Json, budget: nat) returns (node: Node, w: Json, b: nat)
    requires Lawful(k) && Rejects(k, s, v, budget) && RefOf(s).None?
    ensures !(v.Null? && Nullable(s))
    ensures IsPart(k, s, node) && SameShape(v, w) && b <= budget
    ensures Check(k.defs, k.env.categories, node, w, b).None? && !TooDeep(k.defs, node, w, b)
  {
    assert PlanLaw(k, s);
    var nodes :| BodyLaw(k, s, nodes);
    node, w, b := CollapseFails(k, nodes, Nullable(s), v, budget);
  }

  /** A rejection that is not about depth comes with a route the value breaks. */
  lemma {:induction false} RejectedBreaksRoute(k: Compiled, s: Json, v: Json, budget: nat) returns (r: Route, c: string)
    requires Lawful(k) && k.reach == Routed(k.env)
    requires Rejects(k, s, v, budget)
    ensures Leads(k.env, s, r, c) && !Meets(k.env, s, r, v)
    decreases budget, s, 2
  {
    if RefOf(s).Some? {
      var n := RefOf(s).value;
      RejectedRefStep(k, s, v, budget);
      if n in k.env.categories {
        r, c := Go(Follow, End), n;
      } else {
        r, c := RejectedBreaksRoute(k, k.env.schemas[n], v, budget - 1);
        r := Go(Follow, r);
      }
    } else {
      var node, w, b := RejectedBodyStep(k, s, v, budget);
      r, c := RejectedPartBreaksRoute(k, s, node, v, w, b);
    }
  }

  lemma {:induction false} RejectedPartBreaksRoute(k: Compiled, s: Json, node: Node, v: Json, w: Json, b: nat)
    returns (r: Route, c: string)
    requires Lawful(k) && k.reach == Routed(k.env)
    requires RefOf(s).None? && IsPart(k, s, node)
    requires SameShape(v, w) && !(v.Null? && Nullable(s))
    requires Check(k.defs, k.env.categories, node, w, b).None? && !TooDeep(k.defs, node, w, b)
    ensures Leads(k.env, s, r, c) && !Meets(k.env, s, r, v)
    decreases b, s, 1
  {
    if i :| 0 <= i < |Conjuncts(s)| && k.plan(Conjuncts(s)[i]) == Planned(Some(node)) {
      r, c := RejectedBreaksRoute(k, Conjuncts(s)[i], w, b);
      MeetsByShape(k.env, Conjuncts(s)[i], r, v, w);
      r := Go(Conjunct(i), r);
    } else if node.Props? {
      r, c := RejectedFieldBreaksRoute(k, s, v, w, b);
    } else {
      var child := Element(s).value;
      if w.Arr? {
        var i :| 0 <= i < |w.items| && Check(k.defs, k.env.categories, node.node, w.items[i], b - 1).None?;
        r, c := RejectedBreaksRoute(k, child, w.items[i], b - 1);
        MeetsByShape(k.env, child, r, v.items[i], w.items[i]);
      } else {
        r, c := PlannedHasRoute(k, child);
      }
      r := Go(Each, r);
    }
  }

  lemma {:induction false} RejectedFieldBreaksRoute(k: Compiled, s: Json, v: Json, w: Json, b: nat)
    returns (r: Route, c: string)
    requires Lawful(k) && k.reach == Routed(k.env)
    requires RefOf(s).None? && BindingsOf(k, s) != map[]
    requires SameShape(v, w) && !(v.Null? && Nullable(s))
    requires Check(k.defs, k.env.categories, Props(BindingsOf(k, s), false), w, b).None?
    requires !TooDeep(k.defs, Props(BindingsOf(k, s), false), w, b)
    ensures Leads(k.env, s, r, c) && !Meets(k.env, s, r, v)
    decreases b, s, 0
  {
    var fields := BindingsOf(k, s);
    var f: string;
    if !w.Obj? {
      f :| f in fields;
      r, c := PlannedHasRoute(k, Properties(s)[f]);
    } else if g :| g in fields && g !in w.fields && fields[g].required {
      f := g;
      r, c := PlannedHasRoute(k, Properties(s)[f]);
    } else {
      f :| f in fields && f in w.fields && Check(k.defs, k.env.categories, fields[f].node, w.fields[f], b - 1).None?;
      r, c := RejectedBreaksRoute(k, Properties(s)[f], w.fields[f], b - 1);
      MeetsByShape(k.env, Properties(s)[f], r, v.fields[f], w.fields[f]);
    }
    r := Go(Field(f), r);
  }

  /** For a planned schema, acceptance is exactly the full schemas' obligations plus the depth limit. */
  lemma AcceptsIffAllMet(k: Compiled, s: Json, v: Json, budget: nat)
    requires Lawful(k) && k.reach == Routed(k.env) && Planned1(k, s)
    ensures Accepts(k, s, v, budget) <==>
      AllMet(k.env, s, v) && !TooDeep(k.defs, k.plan(s).node.value, v, budget)
  {
    if Accepts(k, s, v, budget) {
      AcceptedIsNotTooDeep(k.defs, k.env.categories, k.plan(s).node.value, v, budget);
      forall r, c | Leads(k.env, s, r, c) ensures Meets(k.env, s, r, v) {
        AcceptedMeets(k, s, v, budget, r, c);
      }
    } else if !TooDeep(k.defs, k.plan(s).node.value, v, budget) {
      var r, c := RejectedBreaksRoute(k, s, v, budget);
    }
  }
}
