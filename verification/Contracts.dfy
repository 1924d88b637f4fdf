/** The generator as a whole, on the set its own `reachable` loop computes. */
module Contracts {
  import opened Prelude
  import opened Schemas
  import opened Plans
  import opened Obligations
  import opened ResponseCheck
  import opened PlanCorrectness
  import opened Sanitising

  /** The generator can compile with this set: it names components only and nothing in it raises. */
  ghost predicate Usable(env: Env, reach: set<string>) {
    && Named(env)
    && env.categories.Keys <= reach <= env.categories.Keys + env.schemas.Keys
    && Compiles(env, reach)
  }

  /** The boundary with a planned schema: without a plan the value passes untouched. */
  function Validate(env: Env, reach: set<string>, s: Json, v: Json, budget: nat): Option<Json>
    requires Compiles(env, reach) && Plan(reach, s).Planned?
  {
    match Plan(reach, s).node
    case None => Some(v)
    case Some(node) => Check(Define(env, reach), env.categories, node, v, budget)
  }

  ghost predicate PlanTooDeep(env: Env, reach: set<string>, s: Json, v: Json, budget: nat)
    requires Compiles(env, reach) && Plan(reach, s).Planned?
  {
    Plan(reach, s).node.Some? && TooDeep(Define(env, reach), Plan(reach, s).node.value, v, budget)
  }

  // ---- The compiler obeys the planner's laws ----

  ghost function Build(env: Env, reach: set<string>): Compiled
    requires Compiles(env, reach)
  {
    Compiled(env, reach, s => Plan(reach, s), Define(env, reach))
  }

  lemma BindingsAgree(env: Env, reach: set<string>, s: Json)
    requires Compiles(env, reach) && !BodyRaises(reach, s)
    ensures BindingsOf(Build(env, reach), s) == Bindings(s, PlanFields(reach, s))
  {
  }

  lemma KeptAgree(env: Env, reach: set<string>, s: Json, node: Node)
    requires Compiles(env, reach) && Raises !in PlanConjuncts(reach, s)
    ensures node in Kept(PlanConjuncts(reach, s)) <==>
      exists i :: 0 <= i < |Conjuncts(s)| && Build(env, reach).plan(Conjuncts(s)[i]) == Planned(Some(node))
  {
    var planned := PlanConjuncts(reach, s);
    assert Planned(Some(node)) in planned <==> exists i :: 0 <= i < |planned| && planned[i] == Planned(Some(node));
    if i :| 0 <= i < |Conjuncts(s)| && Build(env, reach).plan(Conjuncts(s)[i]) == Planned(Some(node)) {
      assert planned[i] == Planned(Some(node));
    }
  }

  lemma PartsAgree(env: Env, reach: set<string>, s: Json, node: Node)
    requires Compiles(env, reach) && !BodyRaises(reach, s)
    ensures node in BodyNodes(reach, s) <==> IsPart(Build(env, reach), s, node)
  {
    BindingsAgree(env, reach, s);
    KeptAgree(env, reach, s, node);
  }

  lemma BodyIsLawful(env: Env, reach: set<string>, s: Json)
    requires Compiles(env, reach) && RefOf(s).None? && Plan(reach, s).Planned?
    ensures BodyLaw(Build(env, reach), s, BodyNodes(reach, s))
  {
    var k := Build(env, reach);
    forall node ensures node in BodyNodes(reach, s) <==> IsPart(k, s, node) {
      PartsAgree(env, reach, s, node);
    }
    forall i | 0 <= i < |Conjuncts(s)| ensures k.plan(Conjuncts(s)[i]).Planned? {
      assert PlanConjuncts(reach, s)[i] != Raises;
    }
  }

  lemma BuildIsLawful(env: Env, reach: set<string>)
    requires Usable(env, reach)
    ensures Lawful(Build(env, reach))
  {
    var k := Build(env, reach);
    forall s ensures PlanLaw(k, s) {
      PlanOutcome(reach, s);
      if k.plan(s).Planned? && RefOf(s).None? {
        BodyIsLawful(env, reach, s);
      }
    }
  }

  // ---- Theorems ----

  /**
   * When the reference walk finds exactly the routed components, the pruned plan accepts a value if and
   * only if the value meets every obligation of the full schemas and no walk exceeds the depth limit.
   */
  lemma PlanAcceptsIffAllMet(env: Env, reach: set<string>, s: Json, v: Json, budget: nat)
    requires Usable(env, reach) && reach == Routed(env) && Plan(reach, s).Planned?
    ensures Validate(env, reach, s, v, budget).Some? <==>
      AllMet(env, s, v) && !PlanTooDeep(env, reach, s, v, budget)
  {
    BuildIsLawful(env, reach);
    if Plan(reach, s).node.Some? {
      AcceptsIffAllMet(Build(env, reach), s, v, budget);
    } else {
      PrunesExactlyIff(env, reach);
    }
  }

  /** An accepted value meets every obligation: pruning with this set loses no check. */
  ghost predicate LosesNothing(env: Env, reach: set<string>)
    requires Compiles(env, reach)
  {
    forall s, v, budget: nat :: Plan(reach, s).Planned? && Validate(env, reach, s, v, budget).Some? ==> AllMet(env, s, v)
  }

  /** A schema goes unplanned exactly when no category can occur below it. */
  ghost predicate PrunesExactly(env: Env, reach: set<string>) {
    forall s :: Plan(reach, s).Planned? ==> (Plan(reach, s).node.None? <==> !HasRoute(env, s))
  }

  lemma RefToIsRouted(env: Env, reach: set<string>, n: string)
    requires Named(env) && n in env.categories.Keys + env.schemas.Keys
    ensures Plan(reach, RefTo(n)) == Planned(if n in reach then Some(Ref(n, false)) else None)
    ensures HasRoute(env, RefTo(n)) <==> n in Routed(env)
  {
    RefToNames(n);
    assert PlanRefs(RefTo(n)) == {n};
    RouteIffHits(env, RefTo(n));
  }

  /** Exactly when pruning loses no check: every component with a reference chain to a category is in the set. */
  lemma LosesNothingIff(env: Env, reach: set<string>)
    requires Usable(env, reach)
    ensures LosesNothing(env, reach) <==> Routed(env) <= reach
  {
    if LosesNothing(env, reach) {
      forall n | n in Routed(env) ensures n in reach {
        RefToIsRouted(env, reach, n);
        var r, c :| Leads(env, RefTo(n), r, c);
        NumberViolatesRoute(env, RefTo(n), r, c, 0.0);
        assert !AllMet(env, RefTo(n), Number(0.0));
        assert Validate(env, reach, RefTo(n), Number(0.0), 0).None?;
      }
    }
    if Routed(env) <= reach {
      var k := Build(env, reach);
      BuildIsLawful(env, reach);
      forall s, v, budget: nat, r, c |
        Plan(reach, s).Planned? && Validate(env, reach, s, v, budget).Some? && Leads(env, s, r, c)
        ensures Meets(env, s, r, v)
      {
        RouteIsPlanned(k, s, r, c);
        assert Accepts(k, s, v, budget);
        AcceptedMeets(k, s, v, budget, r, c);
      }
    }
  }

  /** Exactly when pruning is exact: the computed set and the routed components coincide. */
  lemma PrunesExactlyIff(env: Env, reach: set<string>)
    requires Usable(env, reach)
    ensures PrunesExactly(env, reach) <==> reach == Routed(env)
  {
    if PrunesExactly(env, reach) {
      forall n | n in env.categories.Keys + env.schemas.Keys ensures n in reach <==> n in Routed(env) {
        RefToIsRouted(env, reach, n);
        assert Plan(reach, RefTo(n)).node.None? <==> !HasRoute(env, RefTo(n));
      }
    }
    if reach == Routed(env) {
      forall s | Plan(reach, s).Planned? ensures Plan(reach, s).node.None? <==> !HasRoute(env, s) {
        PlanOutcome(reach, s);
        RouteIffHits(env, s);
      }
    }
  }

  /** The boundary accepts exactly what the full schemas demand: it loses no check and refuses nothing extra. */
  ghost predicate Faithful(env: Env, reach: set<string>)
    requires Compiles(env, reach)
  {
    forall s, v, budget: nat :: Plan(reach, s).Planned? ==>
      (Validate(env, reach, s, v, budget).Some? <==> AllMet(env, s, v) && !PlanTooDeep(env, reach, s, v, budget))
  }

  /** An object schema with one field that refers to `n`. */
  function Wrapper(n: string): Json {
    Obj(map["properties" := Obj(map["f" := RefTo(n)])])
  }

  ghost predicate HasOneField(s: Json, field: string, part: Json) {
    && RefOf(s).None? && Conjuncts(s) == [] && Arms(s) == [] && Element(s).None? && !Nullable(s)
    && Properties(s) == map[field := part]
  }

  lemma WrapperHasOneField(n: string)
    ensures HasOneField(Wrapper(n), "f", RefTo(n))
  {
  }

  lemma HitsRefTo(reach: set<string>, n: string)
    requires '/' !in n
    ensures Hits(reach, RefTo(n)) <==> n in reach
  {
    RefToNames(n);
    assert PlanRefs(RefTo(n)) == {n};
  }

  lemma OneFieldHits(reach: set<string>, s: Json, field: string, n: string)
    requires HasOneField(s, field, RefTo(n)) && '/' !in n
    ensures Hits(reach, s) <==> n in reach
  {
    HitsBody(reach, s);
    HitsRefTo(reach, n);
    assert field in Properties(s);
  }

  lemma OneFieldIsPlanned(reach: set<string>, s: Json, field: string, n: string)
    requires HasOneField(s, field, RefTo(n)) && '/' !in n && n in reach
    ensures Plan(reach, s).Planned? && Plan(reach, s).node.Some?
    ensures Plan(reach, s).node.value.Props? && !Plan(reach, s).node.value.nullable
  {
    RefToNames(n);
    assert !BodyRaises(reach, s);
    var bindings := Bindings(s, PlanFields(reach, s));
    assert field in bindings by { assert PlanFields(reach, s)[field] == Plan(reach, RefTo(n)); }
    assert BodyNodes(reach, s) == [Props(bindings, false)];
  }

  /** A component that is reached but owes nothing makes the boundary refuse a value of which nothing is demanded. */
  lemma UnroutedMemberRefuses(env: Env, reach: set<string>, n: string)
    requires Usable(env, reach) && n in reach && n !in Routed(env)
    ensures !Faithful(env, reach)
  {
    var s, v := Wrapper(n), Number(0.0);
    WrapperHasOneField(n);
    OneFieldIsPlanned(reach, s, "f", n);
    assert Validate(env, reach, s, v, 1).None? && !PlanTooDeep(env, reach, s, v, 1);
    assert AllMet(env, s, v) by {
      OneFieldHits(Routed(env), s, "f", n);
      RouteIffHits(env, s);
    }
  }

  /** Exactly when the boundary is faithful: the computed set is the set of routed components. */
  lemma FaithfulIff(env: Env, reach: set<string>)
    requires Usable(env, reach)
    ensures Faithful(env, reach) <==> reach == Routed(env)
  {
    if reach == Routed(env) {
      forall s, v, budget: nat | Plan(reach, s).Planned?
        ensures Validate(env, reach, s, v, budget).Some? <==> AllMet(env, s, v) && !PlanTooDeep(env, reach, s, v, budget)
      {
        PlanAcceptsIffAllMet(env, reach, s, v, budget);
      }
    }
    if Faithful(env, reach) {
      assert LosesNothing(env, reach);
      LosesNothingIff(env, reach);
      if n :| n in reach && n !in Routed(env) {
        UnroutedMemberRefuses(env, reach, n);
      }
    }
  }

  /**
   * The text of every string of an accepted response, position by position: it is replaced exactly when
   * some obligation of the full schemas puts it in a category that does not list it.
   */
  lemma ValidatedText(env: Env, reach: set<string>, s: Json, v: Json, budget: nat, pos: seq<Key>, t: string)
    requires Usable(env, reach) && Routed(env) <= reach && Plan(reach, s).Planned?
    requires Validate(env, reach, s, v, budget).Some? && At(v, pos) == Some(Str(t))
    ensures At(Validate(env, reach, s, v, budget).value, pos) == Marked(Condemned(env, s, pos, t), t)
  {
    var k := Build(env, reach);
    BuildIsLawful(env, reach);
    if k.plan(s).node.Some? {
      assert Accepts(k, s, v, budget);
      AcceptedText(k, s, v, budget, pos, t);
    } else if Condemned(env, s, pos, t) {
      var r, c :| Leads(env, s, r, c) && Aims(r, pos) && Unlisted(env, c, t);
      RouteIsPlanned(k, s, r, c);
    }
  }

  // ---- Operations ----

  /** The successful responses of one operation, by status, with their JSON schemas (Null when there is none). */
  type Operation = map<nat, Json>

  ghost predicate OperationCompiles(reach: set<string>, op: Operation) {
    forall status :: status in op ==> Plan(reach, op[status]).Planned?
  }

  /** `categoricalResponses[id]`: an operation without any planned response is left out. */
  function PlanOperation(reach: set<string>, op: Operation): Option<map<nat, Option<Node>>>
    requires OperationCompiles(reach, op)
  {
    if exists status :: status in op && Plan(reach, op[status]).node.Some?
    then Some(map status | status in op :: Plan(reach, op[status]).node)
    else None
  }

  /** `validateCategoricalResponse`. */
  function ValidateResponse(env: Env, reach: set<string>, op: Operation, status: nat, v: Json): Option<Json>
    requires Compiles(env, reach) && OperationCompiles(reach, op)
  {
    match PlanOperation(reach, op)
    case None => Some(v)
    case Some(responses) =>
      if status !in responses then None
      else match responses[status]
        case None => Some(v)
        case Some(node) => Check(Define(env, reach), env.categories, node, v, TOP_BUDGET)
  }

  /**
   * The boundary accepts a response exactly when its operation owes no category at all, or the status is
   * declared and the value meets every obligation of that status's schema within the depth limit.
   */
  lemma ResponseAcceptedIff(env: Env, reach: set<string>, op: Operation, status: nat, v: Json)
    requires Usable(env, reach) && reach == Routed(env) && OperationCompiles(reach, op)
    ensures ValidateResponse(env, reach, op, status, v).Some? <==>
      || (forall other :: other in op ==> !HasRoute(env, op[other]))
      || (status in op && AllMet(env, op[status], v) && !PlanTooDeep(env, reach, op[status], v, TOP_BUDGET))
  {
    PrunesExactlyIff(env, reach);
    if status in op {
      PlanAcceptsIffAllMet(env, reach, op[status], v, TOP_BUDGET);
    }
  }
}
