/** What an accepted response becomes: exactly the strings outside their category turn into "unsupported". */
module Sanitising {
  import opened Prelude
  import opened Schemas
  import opened Plans
  import opened Obligations
  import opened ResponseCheck
  import opened PlanCorrectness

  datatype Key = Name(field: string) | Index(index: nat)

  function At(v: Json, pos: seq<Key>): Option<Json>
    decreases |pos|
  {
    if pos == [] then Some(v) else
      match pos[0]
      case Name(f) => if v.Obj? && f in v.fields then At(v.fields[f], pos[1..]) else None
      case Index(i) => if v.Arr? && i < |v.items| then At(v.items[i], pos[1..]) else None
  }

  /** The route arrives at this position of a value. */
  ghost predicate Aims(r: Route, pos: seq<Key>)
    decreases r
  {
    match r
    case End => pos == []
    case Go(Field(f), rest) => pos != [] && pos[0] == Name(f) && Aims(rest, pos[1..])
    case Go(Each, rest) => pos != [] && pos[0].Index? && Aims(rest, pos[1..])
    case Go(_, rest) => Aims(rest, pos)
  }

  ghost predicate Unlisted(env: Env, c: string, t: string) {
    !(c in env.categories && t in env.categories[c])
  }

  /** Some obligation puts this text in a category that does not list it. */
  ghost predicate Condemned(env: Env, s: Json, pos: seq<Key>, t: string) {
    exists r, c :: Leads(env, s, r, c) && Aims(r, pos) && Unlisted(env, c, t)
  }

  ghost predicate CondemnedVia(env: Env, s: Json, edge: Edge, pos: seq<Key>, t: string) {
    exists rest, c :: Leads(env, s, Go(edge, rest), c) && Aims(Go(edge, rest), pos) && Unlisted(env, c, t)
  }

  function Marked(condemned: bool, t: string): Option<Json> {
    Some(Str(if condemned then UNSUPPORTED else t))
  }

  lemma CondemnedHasEdge(env: Env, s: Json, pos: seq<Key>, t: string)
    ensures Condemned(env, s, pos, t) <==> exists edge :: CondemnedVia(env, s, edge, pos, t)
  {
    if Condemned(env, s, pos, t) {
      var r, c :| Leads(env, s, r, c) && Aims(r, pos) && Unlisted(env, c, t);
      assert r == Go(r.edge, r.rest);
      assert CondemnedVia(env, s, r.edge, pos, t);
    }
    if edge :| CondemnedVia(env, s, edge, pos, t) {
      var rest, c :| Leads(env, s, Go(edge, rest), c) && Aims(Go(edge, rest), pos) && Unlisted(env, c, t);
      assert Condemned(env, s, pos, t);
    }
  }

  /** Condemnation through one edge is condemnation of the child the edge leads to. */
  lemma ViaChild(env: Env, s: Json, edge: Edge, child: Json, at: seq<Key>, pos: seq<Key>, t: string)
    requires
      match edge
      case Follow => RefOf(s).Some? && RefOf(s).value !in env.categories && RefOf(s).value in env.schemas
                     && child == env.schemas[RefOf(s).value] && at == pos
      case Conjunct(i) => RefOf(s).None? && i < |Conjuncts(s)| && child == Conjuncts(s)[i] && at == pos
      case Field(f) => RefOf(s).None? && f in Properties(s) && child == Properties(s)[f]
                       && pos != [] && pos[0] == Name(f) && at == pos[1..]
      case Each => RefOf(s).None? && Element(s).Some? && child == Element(s).value
                   && pos != [] && pos[0].Index? && at == pos[1..]
    ensures CondemnedVia(env, s, edge, pos, t) <==> Condemned(env, child, at, t)
  {
    if CondemnedVia(env, s, edge, pos, t) {
      var rest, c :| Leads(env, s, Go(edge, rest), c) && Aims(Go(edge, rest), pos) && Unlisted(env, c, t);
      assert Leads(env, child, rest, c) && Aims(rest, at);
    }
    if Condemned(env, child, at, t) {
      var rest, c :| Leads(env, child, rest, c) && Aims(rest, at) && Unlisted(env, c, t);
      assert Leads(env, s, Go(edge, rest), c) && Aims(Go(edge, rest), pos);
    }
  }

  /** The edge's obligations are checked by this node of the plan. */
  ghost predicate Carries(k: Compiled, s: Json, node: Node, edge: Edge) {
    match edge
    case Follow => false
    case Conjunct(i) => i < |Conjuncts(s)| && k.plan(Conjuncts(s)[i]) == Planned(Some(node))
    case Field(f) => f in BindingsOf(k, s) && node == Props(BindingsOf(k, s), false)
    case Each => Element(s).Some? && Planned1(k, Element(s).value)
                 && node == Items(k.plan(Element(s).value).node.value, false)
  }

  /** Every edge with an obligation is carried by one of the parts of the schema. */
  lemma EdgeIsCarried(k: Compiled, s: Json, edge: Edge, rest: Route, c: string) returns (node: Node)
    requires Lawful(k) && Routed(k.env) <= k.reach
    requires RefOf(s).None? && Planned1(k, s) && Leads(k.env, s, Go(edge, rest), c)
    ensures IsPart(k, s, node) && Carries(k, s, node, edge)
  {
    var child := ChildIsPlanned(k, s, edge, rest, c);
    match edge
    case Conjunct(i) =>
      node := k.plan(child).node.value;
      assert k.plan(Conjuncts(s)[i]) == Planned(Some(node));
    case Field(f) =>
      assert f in BindingsOf(k, s);
      node := Props(BindingsOf(k, s), false);
    case Each =>
      node := Items(k.plan(child).node.value, false);
  }

  ghost predicate PartCondemned(k: Compiled, s: Json, node: Node, pos: seq<Key>, t: string) {
    exists edge :: Carries(k, s, node, edge) && CondemnedVia(k.env, s, edge, pos, t)
  }

  // ---- The text at a position after a check ----

  lemma {:induction false} AcceptedText(k: Compiled, s: Json, v: Json, budget: nat, pos: seq<Key>, t: string)
    requires Lawful(k) && Routed(k.env) <= k.reach
    requires Accepts(k, s, v, budget) && At(v, pos) == Some(Str(t))
    ensures At(Check(k.defs, k.env.categories, k.plan(s).node.value, v, budget).value, pos)
      == Marked(Condemned(k.env, s, pos, t), t)
    decreases budget, s, 3
  {
    assert PlanLaw(k, s);
    assert !v.Null?;
    if RefOf(s).Some? {
      RefText(k, s, v, budget, pos, t);
    } else {
      var nodes :| BodyLaw(k, s, nodes);
      CondemnedByParts(k, s, nodes, pos, t);
      BodyText(k, s, nodes, v, budget, pos, t);
    }
  }

  lemma {:induction false} BodyText(k: Compiled, s: Json, nodes: seq<Node>, v: Json, budget: nat, pos: seq<Key>, t: string)
    requires Lawful(k) && Routed(k.env) <= k.reach && RefOf(s).None?
    requires nodes != [] && forall node :: node in nodes ==> IsPart(k, s, node)
    requires Check(k.defs, k.env.categories, Collapse(nodes, Nullable(s)).value, v, budget).Some?
    requires At(v, pos) == Some(Str(t))
    ensures At(Check(k.defs, k.env.categories, Collapse(nodes, Nullable(s)).value, v, budget).value, pos)
      == Marked(exists node :: node in nodes && PartCondemned(k, s, node, pos, t), t)
    decreases budget, s, 2, |nodes| + 1
  {
    var node := if |nodes| == 1 then nodes[0] else All(nodes, false);
    NullabilityIsIdle(k, node, Nullable(s), v, budget, pos, t);
    if |nodes| == 1 {
      PartText(k, s, nodes[0], v, budget, pos, t);
    } else {
      AllText(k, s, nodes, v, budget - 1, pos, t);
    }
  }

  /** Marking a node nullable does not change how a value that holds a string is checked. */
  lemma NullabilityIsIdle(k: Compiled, node: Node, nullable: bool, v: Json, budget: nat, pos: seq<Key>, t: string)
    requires At(v, pos) == Some(Str(t))
    ensures Check(k.defs, k.env.categories, if nullable then node.(nullable := true) else node, v, budget)
      == Check(k.defs, k.env.categories, node, v, budget)
  {
    assert !v.Null?;
  }

  lemma CondemnedByParts(k: Compiled, s: Json, nodes: seq<Node>, pos: seq<Key>, t: string)
    requires Lawful(k) && Routed(k.env) <= k.reach
    requires RefOf(s).None? && Planned1(k, s) && BodyLaw(k, s, nodes)
    ensures Condemned(k.env, s, pos, t) <==> exists node :: node in nodes && PartCondemned(k, s, node, pos, t)
  {
    CondemnedHasEdge(k.env, s, pos, t);
    if edge :| CondemnedVia(k.env, s, edge, pos, t) {
      var rest, c :| Leads(k.env, s, Go(edge, rest), c) && Aims(Go(edge, rest), pos) && Unlisted(k.env, c, t);
      var node := EdgeIsCarried(k, s, edge, rest, c);
      assert node in nodes && PartCondemned(k, s, node, pos, t);
    }
  }

  lemma {:induction false} RefText(k: Compiled, s: Json, v: Json, budget: nat, pos: seq<Key>, t: string)
    requires Lawful(k) && Routed(k.env) <= k.reach
    requires Accepts(k, s, v, budget) && At(v, pos) == Some(Str(t)) && RefOf(s).Some?
    ensures At(Check(k.defs, k.env.categories, k.plan(s).node.value, v, budget).value, pos)
      == Marked(Condemned(k.env, s, pos, t), t)
    decreases budget, s, 2
  {
    assert PlanLaw(k, s);
    var n := RefOf(s).value;
    assert n in k.env.categories.Keys + k.env.schemas.Keys;
    CondemnedHasEdge(k.env, s, pos, t);
    if n in k.env.categories {
      assert !v.Null?;
      assert Check(k.defs, k.env.categories, Category(n, false), v, budget - 1).Some?;
      assert v == Str(t) && pos == [];
      if Unlisted(k.env, n, t) {
        assert Leads(k.env, s, Go(Follow, End), n) && Aims(Go(Follow, End), pos);
      }
    } else {
      var target := k.env.schemas[n];
      assert Accepts(k, target, v, budget - 1);
      AcceptedText(k, target, v, budget - 1, pos, t);
      ViaChild(k.env, s, Follow, target, pos, pos, t);
    }
  }

  lemma {:induction false} AllText(k: Compiled, s: Json, nodes: seq<Node>, v: Json, b: nat, pos: seq<Key>, t: string)
    requires Lawful(k) && Routed(k.env) <= k.reach && RefOf(s).None?
    requires forall node :: node in nodes ==> IsPart(k, s, node)
    requires CheckAll(k.defs, k.env.categories, nodes, v, b).Some? && At(v, pos) == Some(Str(t))
    ensures At(CheckAll(k.defs, k.env.categories, nodes, v, b).value, pos)
      == Marked(exists node :: node in nodes && PartCondemned(k, s, node, pos, t), t)
    decreases b, s, 2, |nodes|
  {
    if nodes != [] {
      PartText(k, s, nodes[0], v, b, pos, t);
      var w := Check(k.defs, k.env.categories, nodes[0], v, b).value;
      var u := if PartCondemned(k, s, nodes[0], pos, t) then UNSUPPORTED else t;
      AllText(k, s, nodes[1..], w, b, pos, u);
      assert nodes == [nodes[0]] + nodes[1..];
    }
  }

  lemma {:induction false} PartText(k: Compiled, s: Json, node: Node, v: Json, b: nat, pos: seq<Key>, t: string)
    requires Lawful(k) && Routed(k.env) <= k.reach && RefOf(s).None? && IsPart(k, s, node)
    requires Check(k.defs, k.env.categories, node, v, b).Some? && At(v, pos) == Some(Str(t))
    ensures At(Check(k.defs, k.env.categories, node, v, b).value, pos)
      == Marked(PartCondemned(k, s, node, pos, t), t)
    decreases b, s, 1
  {
    var out := At(Check(k.defs, k.env.categories, node, v, b).value, pos);
    forall edge | Carries(k, s, node, edge) && CondemnedVia(k.env, s, edge, pos, t)
      ensures out == Some(Str(UNSUPPORTED))
    {
      EdgeText(k, s, node, edge, v, b, pos, t);
    }
    if !PartCondemned(k, s, node, pos, t) {
      if i :| 0 <= i < |Conjuncts(s)| && k.plan(Conjuncts(s)[i]) == Planned(Some(node)) {
        EdgeText(k, s, node, Conjunct(i), v, b, pos, t);
      } else if node.Props? {
        assert pos != [] && pos[0].Name?;
        if pos[0].field in BindingsOf(k, s) {
          EdgeText(k, s, node, Field(pos[0].field), v, b, pos, t);
        }
      } else {
        EdgeText(k, s, node, Each, v, b, pos, t);
      }
    }
  }

  /** What a part does to the text, seen through one edge it carries. */
  lemma {:induction false} EdgeText(k: Compiled, s: Json, node: Node, edge: Edge, v: Json, b: nat, pos: seq<Key>, t: string)
    requires Lawful(k) && Routed(k.env) <= k.reach && RefOf(s).None? && Carries(k, s, node, edge)
    requires edge.Field? ==> pos != [] && pos[0] == Name(edge.field)
    requires Check(k.defs, k.env.categories, node, v, b).Some? && At(v, pos) == Some(Str(t))
    ensures At(Check(k.defs, k.env.categories, node, v, b).value, pos)
      == Marked(CondemnedVia(k.env, s, edge, pos, t), t)
    decreases b, s, 0
  {
    match edge
    case Conjunct(i) =>
      assert Accepts(k, Conjuncts(s)[i], v, b);
      AcceptedText(k, Conjuncts(s)[i], v, b, pos, t);
      ViaChild(k.env, s, edge, Conjuncts(s)[i], pos, pos, t);
    case Field(f) =>
      var child := Properties(s)[f];
      assert Accepts(k, child, v.fields[f], b - 1);
      AcceptedText(k, child, v.fields[f], b - 1, pos[1..], t);
      ViaChild(k.env, s, edge, child, pos[1..], pos, t);
    case Each =>
      var child := Element(s).value;
      assert pos != [] && pos[0].Index?;
      assert Accepts(k, child, v.items[pos[0].index], b - 1);
      AcceptedText(k, child, v.items[pos[0].index], b - 1, pos[1..], t);
      ViaChild(k.env, s, edge, child, pos[1..], pos, t);
  }
}
