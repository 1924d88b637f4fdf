/** The compiler `plan`: a schema becomes a pruned checking plan over the reachable components. */
module Plans {
  import opened Prelude
  import opened Schemas

  datatype Node =
    | Category(name: string, nullable: bool)
    | Ref(name: string, nullable: bool)
    | All(nodes: seq<Node>, nullable: bool)
    | Props(fields: map<string, Binding>, nullable: bool)
    | Items(node: Node, nullable: bool)

  datatype Binding = Binding(required: bool, node: Node)

  /** `plan` raises on a categorical union; otherwise it returns a node or None. */
  datatype Planned = Raises | Planned(node: Option<Node>)

  function Kept(ps: seq<Planned>): (r: seq<Node>)
    requires Raises !in ps
    ensures forall n :: n in r <==> Planned(Some(n)) in ps
  {
    if |ps| == 0 then []
    else
      assert ps == [ps[0]] + ps[1..];
      (if ps[0].node.Some? then [ps[0].node.value] else []) + Kept(ps[1..])
  }

  function Bindings(s: Json, fields: map<string, Planned>): map<string, Binding>
    requires forall f :: f in fields ==> fields[f].Planned?
  {
    map f | f in fields && fields[f].node.Some? :: Binding(Required(s, f), fields[f].node.value)
  }

  function Nodes(kept: seq<Node>, bindings: map<string, Binding>, element: Option<Node>): seq<Node> {
    kept
    + (if bindings != map[] then [Props(bindings, false)] else [])
    + (if element.Some? then [Items(element.value, false)] else [])
  }

  function Collapse(nodes: seq<Node>, nullable: bool): Option<Node> {
    if |nodes| == 0 then None else
      var node := if |nodes| == 1 then nodes[0] else All(nodes, false);
      Some(if nullable then node.(nullable := true) else node)
  }

  function PlanConjuncts(reach: set<string>, s: Json): (r: seq<Planned>)
    ensures |r| == |Conjuncts(s)|
    ensures forall i :: 0 <= i < |r| ==> r[i] == Plan(reach, Conjuncts(s)[i])
    decreases s, 0
  {
    seq(|Conjuncts(s)|, i requires 0 <= i < |Conjuncts(s)| => Plan(reach, Conjuncts(s)[i]))
  }

  function PlanFields(reach: set<string>, s: Json): (r: map<string, Planned>)
    ensures r.Keys == Properties(s).Keys
    ensures forall f :: f in r ==> r[f] == Plan(reach, Properties(s)[f])
    decreases s, 0
  {
    map f | f in Properties(s) :: Plan(reach, Properties(s)[f])
  }

  function PlanElement(reach: set<string>, s: Json): Planned
    decreases s, 0
  {
    if Element(s).Some? then Plan(reach, Element(s).value) else Planned(None)
  }

  /** Some part of the schema that `plan` visits below `s` raises, or a union arm yields a plan. */
  predicate BodyRaises(reach: set<string>, s: Json)
    decreases s, 1
  {
    || Raises in PlanConjuncts(reach, s)
    || (exists i :: 0 <= i < |Arms(s)| && Plan(reach, Arms(s)[i]) != Planned(None))
    || (exists f :: f in Properties(s) && Plan(reach, Properties(s)[f]).Raises?)
    || PlanElement(reach, s).Raises?
  }

  /** The nodes `plan` collects for a schema without `$ref`. */
  function BodyNodes(reach: set<string>, s: Json): seq<Node>
    requires !BodyRaises(reach, s)
    decreases s, 2
  {
    Nodes(Kept(PlanConjuncts(reach, s)), Bindings(s, PlanFields(reach, s)), PlanElement(reach, s).node)
  }

  function Plan(reach: set<string>, s: Json): (r: Planned)
    decreases s, 3
  {
    match RefOf(s)
    case Some(name) => Planned(if name in reach then Some(Ref(name, Nullable(s))) else None)
    case None =>
      if BodyRaises(reach, s) then Raises
      else Planned(Collapse(BodyNodes(reach, s), Nullable(s)))
  }

  /** `a` is a union arm on the part of the schema that `plan` walks; arms inside arms count. */
  ghost predicate IsAlternative(s: Json, a: Json)
    decreases s
  {
    RefOf(s).None? && (
      || (exists i :: 0 <= i < |Arms(s)| && (a == Arms(s)[i] || IsAlternative(Arms(s)[i], a)))
      || (exists i :: 0 <= i < |Conjuncts(s)| && IsAlternative(Conjuncts(s)[i], a))
      || (exists f :: f in Properties(s) && IsAlternative(Properties(s)[f], a))
      || (Element(s).Some? && IsAlternative(Element(s).value, a)))
  }

  /** The compiler can see a reference to a member of `reach`. */
  ghost predicate Hits(reach: set<string>, s: Json) {
    exists n :: n in PlanRefs(s) && n in reach
  }

  ghost predicate TouchesUnion(reach: set<string>, s: Json) {
    exists a :: IsAlternative(s, a) && Hits(reach, a)
  }

  lemma {:induction false} HitsBody(reach: set<string>, s: Json)
    requires RefOf(s).None?
    ensures Hits(reach, s) <==>
      || (exists i :: 0 <= i < |Conjuncts(s)| && Hits(reach, Conjuncts(s)[i]))
      || (exists f :: f in Properties(s) && Hits(reach, Properties(s)[f]))
      || (Element(s).Some? && Hits(reach, Element(s).value))
  {
  }

  lemma {:induction false} TouchesBody(reach: set<string>, s: Json)
    requires RefOf(s).None?
    ensures TouchesUnion(reach, s) <==>
      || (exists i :: 0 <= i < |Arms(s)| && (Hits(reach, Arms(s)[i]) || TouchesUnion(reach, Arms(s)[i])))
      || (exists i :: 0 <= i < |Conjuncts(s)| && TouchesUnion(reach, Conjuncts(s)[i]))
      || (exists f :: f in Properties(s) && TouchesUnion(reach, Properties(s)[f]))
      || (Element(s).Some? && TouchesUnion(reach, Element(s).value))
  {
    if i :| 0 <= i < |Arms(s)| && Hits(reach, Arms(s)[i]) {
      assert IsAlternative(s, Arms(s)[i]);
    }
  }

  /**
   * For every reachable set: compilation raises exactly when some union arm refers to a member,
   * and otherwise a schema gets a plan exactly when the compiler can see a reference to a member.
   */
  lemma {:induction false} PlanOutcome(reach: set<string>, s: Json)
    ensures Plan(reach, s).Raises? <==> TouchesUnion(reach, s)
    ensures !Plan(reach, s).Raises? ==> (Plan(reach, s).node.Some? <==> Hits(reach, s))
  {
    if RefOf(s).None? {
      forall i | 0 <= i < |Conjuncts(s)| ensures OutcomeKnown(reach, Conjuncts(s)[i]) {
        PlanOutcome(reach, Conjuncts(s)[i]);
      }
      forall i | 0 <= i < |Arms(s)| ensures OutcomeKnown(reach, Arms(s)[i]) {
        PlanOutcome(reach, Arms(s)[i]);
      }
      forall f | f in Properties(s) ensures OutcomeKnown(reach, Properties(s)[f]) {
        PlanOutcome(reach, Properties(s)[f]);
      }
      if Element(s).Some? {
        PlanOutcome(reach, Element(s).value);
      }
      RaisesIffUnion(reach, s);
      if !BodyRaises(reach, s) {
        NodesIffHits(reach, s);
      }
    } else {
      assert PlanRefs(s) == {RefOf(s).value};
    }
  }

  ghost predicate OutcomeKnown(reach: set<string>, s: Json) {
    && (Plan(reach, s).Raises? <==> TouchesUnion(reach, s))
    && (!Plan(reach, s).Raises? ==> (Plan(reach, s).node.Some? <==> Hits(reach, s)))
  }

  ghost predicate ChildrenKnown(reach: set<string>, s: Json) {
    && (forall i :: 0 <= i < |Conjuncts(s)| ==> OutcomeKnown(reach, Conjuncts(s)[i]))
    && (forall i :: 0 <= i < |Arms(s)| ==> OutcomeKnown(reach, Arms(s)[i]))
    && (forall f :: f in Properties(s) ==> OutcomeKnown(reach, Properties(s)[f]))
    && (Element(s).Some? ==> OutcomeKnown(reach, Element(s).value))
  }

  lemma {:induction false} RaisesIffUnion(reach: set<string>, s: Json)
    requires RefOf(s).None? && ChildrenKnown(reach, s)
    ensures BodyRaises(reach, s) <==> TouchesUnion(reach, s)
  {
    TouchesBody(reach, s);
  }

  lemma {:induction false} KeptIffHits(reach: set<string>, s: Json)
    requires ChildrenKnown(reach, s) && Raises !in PlanConjuncts(reach, s)
    ensures Kept(PlanConjuncts(reach, s)) != [] <==>
      exists i :: 0 <= i < |Conjuncts(s)| && Hits(reach, Conjuncts(s)[i])
  {
    var planned := PlanConjuncts(reach, s);
    var kept := Kept(planned);
    if kept != [] {
      assert Planned(Some(kept[0])) in planned;
      var i :| 0 <= i < |planned| && planned[i] == Planned(Some(kept[0]));
      assert OutcomeKnown(reach, Conjuncts(s)[i]);
    }
    if i :| 0 <= i < |Conjuncts(s)| && Hits(reach, Conjuncts(s)[i]) {
      assert OutcomeKnown(reach, Conjuncts(s)[i]);
      assert planned[i].Planned?;
      assert planned[i] == Planned(Some(planned[i].node.value));
      assert planned[i].node.value in kept;
    }
  }

  lemma {:induction false} BindingsIffHits(reach: set<string>, s: Json)
    requires ChildrenKnown(reach, s) && !BodyRaises(reach, s)
    ensures Bindings(s, PlanFields(reach, s)) != map[] <==>
      exists f :: f in Properties(s) && Hits(reach, Properties(s)[f])
  {
    var bindings := Bindings(s, PlanFields(reach, s));
    if bindings != map[] {
      var f :| f in bindings;
      assert OutcomeKnown(reach, Properties(s)[f]);
    }
    if f :| f in Properties(s) && Hits(reach, Properties(s)[f]) {
      assert OutcomeKnown(reach, Properties(s)[f]);
      assert f in bindings;
    }
  }

  lemma {:induction false} NodesIffHits(reach: set<string>, s: Json)
    requires RefOf(s).None? && ChildrenKnown(reach, s) && !BodyRaises(reach, s)
    ensures BodyNodes(reach, s) != [] <==> Hits(reach, s)
  {
    HitsBody(reach, s);
    KeptIffHits(reach, s);
    BindingsIffHits(reach, s);
  }
}
