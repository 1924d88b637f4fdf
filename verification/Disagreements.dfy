/** Two families of documents on which the raw reference walk and the compiler disagree, and what that costs. */
module Disagreements {
  import opened Prelude
  import opened Schemas
  import opened Reachability
  import opened Plans
  import opened Obligations
  import opened ResponseCheck
  import opened Contracts
  import opened Fragment

  /** A document with one category and one other component. */
  function Document(category: string, values: set<string>, name: string, s: Json): Env {
    Env(map[category := values], map[name := s])
  }

  ghost predicate GoodNames(category: string, name: string) {
    category != "" && '/' !in category && name != "" && '/' !in name && category != name
  }

  lemma ReachStops(category: string, values: set<string>, name: string, s: Json, walk: Walk)
    requires walk(s) == {}
    ensures Reach(Document(category, values, name, s), walk) == {category}
  {
    var env := Document(category, values, name, s);
    ReachHoldsCategories(env, walk);
    assert Closed(env, walk, {category});
    ReachIsLeast(env, walk, {category});
  }

  lemma ReachGoesOn(category: string, values: set<string>, name: string, s: Json, walk: Walk)
    requires category in walk(s)
    ensures Reach(Document(category, values, name, s), walk) == {category, name}
  {
    var env := Document(category, values, name, s);
    ReachHoldsCategories(env, walk);
    ReachStep(env, walk, name, category);
  }

  lemma RefsOfRefTo(n: string)
    requires '/' !in n
    ensures RefOf(RefTo(n)) == Some(n) && PlanRefs(RefTo(n)) == {n} && n in Refs(RefTo(n))
  {
    RefToNames(n);
  }

  // ---- A field named `items` beside a categorical field ----

  function Panel(field: string, category: string): Json {
    Obj(map["properties" := Obj(map["items" := Obj(map[]), field := RefTo(category)])])
  }

  lemma PanelHidesItsField(field: string, category: string, n: string)
    requires field !in STRUCTURAL + {"$ref"}
    ensures n !in Refs(Panel(field, category))
  {
    var panel := Panel(field, category);
    var fields := panel.fields["properties"];
    assert "items" in fields.fields.Keys && "items" in STRUCTURAL;
    RefsOfBody(fields, n);
    assert forall key :: key in STRUCTURAL && key in fields.fields ==> fields.fields[key] == Obj(map[]);
    assert Refs(Obj(map[])) == {};
    assert n !in Refs(fields);
    assert "properties" in panel.fields.Keys && "properties" in STRUCTURAL;
    RefsOfBody(panel, n);
  }

  lemma PanelShowsItsField(field: string, category: string)
    requires field !in STRUCTURAL + {"$ref"} && '/' !in category
    ensures category in PlanRefs(Panel(field, category))
  {
    RefsOfRefTo(category);
    var panel := Panel(field, category);
    assert field in Properties(panel) && Properties(panel)[field] == RefTo(category);
  }

  /**
   * The raw walk takes the field map for a schema and looks below `items` only, so whatever the other
   * field is called, the component is not reached and the check on that field is lost.
   */
  lemma FieldNamedItemsLosesCheck(category: string, values: set<string>, name: string, field: string)
    requires GoodNames(category, name) && field !in STRUCTURAL + {"$ref"}
    ensures
      var env := Document(category, values, name, Panel(field, category));
      Usable(env, Reach(env, Refs)) && !LosesNothing(env, Reach(env, Refs))
  {
    var s := Panel(field, category);
    var env := Document(category, values, name, s);
    forall n ensures n !in Refs(s) { PanelHidesItsField(field, category, n); }
    PanelShowsItsField(field, category);
    LostWhenUnseen(category, values, name, s);
  }

  lemma LostWhenUnseen(category: string, values: set<string>, name: string, s: Json)
    requires GoodNames(category, name) && Refs(s) == {} && category in PlanRefs(s)
    ensures
      var env := Document(category, values, name, s);
      Usable(env, Reach(env, Refs)) && !LosesNothing(env, Reach(env, Refs))
  {
    var env := Document(category, values, name, s);
    ReachStops(category, values, name, s, Refs);
    ReachGoesOn(category, values, name, s, PlanRefs);
    assert name !in Reach(env, Refs);
    LosesNothingIff(env, Reach(env, Refs));
  }

  // ---- A reference under a keyword the compiler does not read ----

  function Hidden(keyword: string, category: string): Json {
    Obj(map[keyword := RefTo(category)])
  }

  lemma HiddenIsSeenByRefs(keyword: string, category: string)
    requires keyword !in STRUCTURAL + {"$ref"} && '/' !in category
    ensures category in Refs(Hidden(keyword, category))
  {
    RefsOfRefTo(category);
    var m := map[keyword := RefTo(category)];
    assert m.Keys == {keyword};
    RefsOfFieldMap(m, category);
  }

  lemma HiddenHasNoPlan(keyword: string, category: string, reach: set<string>)
    requires keyword !in STRUCTURAL + {"$ref"}
    ensures PlanRefs(Hidden(keyword, category)) == {} && Plan(reach, Hidden(keyword, category)) == Planned(None)
  {
    var s := Hidden(keyword, category);
    assert RefOf(s).None?;
    assert Conjuncts(s) == [] && Arms(s) == [] && Properties(s) == map[] && Element(s).None?;
    assert PlanRefs(s) == {};
    assert !Hits(reach, s) && !TouchesUnion(reach, s);
    PlanOutcome(reach, s);
  }

  /**
   * The raw walk reaches the component but the compiler sees nothing in it: its definition is null, and
   * every response that refers to it is refused although nothing is demanded of it. The keyword is
   * arbitrary; `additionalProperties` is the usual one.
   */
  lemma HiddenReferenceRefusesEverything(category: string, values: set<string>, name: string, keyword: string, v: Json, budget: nat)
    requires GoodNames(category, name) && keyword !in STRUCTURAL + {"$ref"}
    ensures
      var env := Document(category, values, name, Hidden(keyword, category));
      && Usable(env, Reach(env, Refs))
      && Plan(Reach(env, Refs), RefTo(name)).Planned?
      && Validate(env, Reach(env, Refs), RefTo(name), v, budget).None?
      && AllMet(env, RefTo(name), v)
  {
    var s := Hidden(keyword, category);
    HiddenIsSeenByRefs(keyword, category);
    HiddenHasNoPlan(keyword, category, {category, name});
    RefusedWhenUnplanned(category, values, name, s, v, budget);
  }

  /** A reference to a reached component without a plan of its own is refused. */
  lemma NullDefinitionRefuses(env: Env, reach: set<string>, name: string, v: Json, budget: nat)
    requires Usable(env, reach) && name in reach && name in env.schemas && name !in env.categories
    requires Plan(reach, env.schemas[name]) == Planned(None)
    ensures Plan(reach, RefTo(name)).Planned? && Validate(env, reach, RefTo(name), v, budget).None?
  {
    RefToIsRouted(env, reach, name);
    assert Define(env, reach)[name] == None;
  }

  lemma UnroutedOwesNothing(env: Env, name: string, v: Json)
    requires Named(env) && name in env.schemas && name !in Routed(env)
    ensures AllMet(env, RefTo(name), v)
  {
    RefToIsRouted(env, {}, name);
    assert !HasRoute(env, RefTo(name));
  }

  lemma DocumentIsUsable(category: string, values: set<string>, name: string, s: Json)
    requires GoodNames(category, name) && Plan({category, name}, s).Planned?
    ensures Usable(Document(category, values, name, s), {category, name})
  {
  }

  lemma RefusedWhenUnplanned(category: string, values: set<string>, name: string, s: Json, v: Json, budget: nat)
    requires GoodNames(category, name) && category in Refs(s)
    requires PlanRefs(s) == {} && Plan({category, name}, s) == Planned(None)
    ensures
      var env := Document(category, values, name, s);
      && Usable(env, Reach(env, Refs))
      && Plan(Reach(env, Refs), RefTo(name)).Planned?
      && Validate(env, Reach(env, Refs), RefTo(name), v, budget).None?
      && AllMet(env, RefTo(name), v)
  {
    var env := Document(category, values, name, s);
    ReachGoesOn(category, values, name, s, Refs);
    ReachStops(category, values, name, s, PlanRefs);
    DocumentIsUsable(category, values, name, s);
    NullDefinitionRefuses(env, {category, name}, name, v, budget);
    UnroutedOwesNothing(env, name, v);
  }
}
