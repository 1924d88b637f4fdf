/** What the boundary hands back, and what single keywords, limits and texts of the contract come to. */
module ResponseLaws {
  import opened Prelude
  import opened Schemas
  import opened Reachability
  import opened Plans
  import opened Obligations
  import opened ResponseCheck
  import opened Sanitising
  import opened Contracts
  import opened Fragment

  // ---- The value handed back ----

  /** `r` is `v` with exactly the condemned texts of the schema replaced. */
  ghost predicate IsSanitised(env: Env, s: Json, v: Json, r: Json) {
    && SameShape(v, r)
    && forall pos, t :: At(v, pos) == Some(Str(t)) ==>
         At(r, pos) == Some(Str(if Condemned(env, s, pos, t) then "unsupported" else t))
  }

  lemma ValidatedIsSanitised(env: Env, reach: set<string>, s: Json, v: Json, budget: nat)
    requires Usable(env, reach) && Routed(env) <= reach && Plan(reach, s).Planned?
    requires Validate(env, reach, s, v, budget).Some?
    ensures IsSanitised(env, s, v, Validate(env, reach, s, v, budget).value)
  {
    var r := Validate(env, reach, s, v, budget).value;
    if Plan(reach, s).node.Some? {
      CheckKeepsShape(Define(env, reach), env.categories, Plan(reach, s).node.value, v, budget);
    } else {
      SameShapeReflexive(v);
    }
    forall pos, t | At(v, pos) == Some(Str(t))
      ensures At(r, pos) == Some(Str(if Condemned(env, s, pos, t) then "unsupported" else t))
    {
      ValidatedText(env, reach, s, v, budget, pos, t);
    }
  }

  lemma ResponseIsValidated(env: Env, reach: set<string>, op: Operation, status: nat, v: Json)
    requires Compiles(env, reach) && OperationCompiles(reach, op) && ValidateResponse(env, reach, op, status, v).Some?
    ensures status in op ==> ValidateResponse(env, reach, op, status, v) == Validate(env, reach, op[status], v, TOP_BUDGET)
    ensures status !in op ==> ValidateResponse(env, reach, op, status, v) == Some(v)
  {
  }

  /** An accepted response of a declared status comes back sanitised by that status's schema, any other untouched. */
  lemma ResponseIsSanitised(env: Env, reach: set<string>, op: Operation, status: nat, v: Json)
    requires Usable(env, reach) && Routed(env) <= reach && OperationCompiles(reach, op)
    requires ValidateResponse(env, reach, op, status, v).Some?
    ensures status in op ==> IsSanitised(env, op[status], v, ValidateResponse(env, reach, op, status, v).value)
    ensures status !in op ==> ValidateResponse(env, reach, op, status, v).value == v
  {
    ResponseIsValidated(env, reach, op, status, v);
    if status in op { ValidatedIsSanitised(env, reach, op[status], v, TOP_BUDGET); }
  }

  ghost predicate SameTexts(v: Json, r: Json) {
    forall pos, t :: At(v, pos) == Some(Str(t)) ==> At(r, pos) == Some(Str(t))
  }

  /** Shape and texts make the value. */
  lemma {:induction false} ShapeAndTexts(v: Json, r: Json)
    requires SameShape(v, r) && SameTexts(v, r)
    ensures v == r
  {
    match v
    case Str(t) =>
      assert At(v, []) == Some(Str(t));
    case Arr(xs) =>
      forall i | 0 <= i < |xs| ensures xs[i] == r.items[i] {
        forall pos, t | At(xs[i], pos) == Some(Str(t)) ensures At(r.items[i], pos) == Some(Str(t)) {
          DescendArray(v, r, i, pos, t);
        }
        ShapeAndTexts(xs[i], r.items[i]);
      }
    case Obj(m) =>
      forall f | f in m ensures m[f] == r.fields[f] {
        forall pos, t | At(m[f], pos) == Some(Str(t)) ensures At(r.fields[f], pos) == Some(Str(t)) {
          DescendObject(v, r, f, pos, t);
        }
        ShapeAndTexts(m[f], r.fields[f]);
      }
      assert m == r.fields;
    case _ =>
  }

  lemma DescendArray(v: Json, r: Json, i: nat, pos: seq<Key>, t: string)
    requires v.Arr? && r.Arr? && i < |v.items| && i < |r.items| && SameTexts(v, r) && At(v.items[i], pos) == Some(Str(t))
    ensures At(r.items[i], pos) == Some(Str(t))
  {
    var longer := [Index(i)] + pos;
    assert longer[1..] == pos;
    assert At(v, longer) == Some(Str(t));
    assert At(r, longer) == Some(Str(t));
  }

  lemma DescendObject(v: Json, r: Json, f: string, pos: seq<Key>, t: string)
    requires v.Obj? && r.Obj? && f in v.fields && f in r.fields && SameTexts(v, r) && At(v.fields[f], pos) == Some(Str(t))
    ensures At(r.fields[f], pos) == Some(Str(t))
  {
    var longer := [Name(f)] + pos;
    assert longer[1..] == pos;
    assert At(v, longer) == Some(Str(t));
    assert At(r, longer) == Some(Str(t));
  }

  /** What a value becomes is determined: a sanitised value is the only one. */
  lemma SanitisedIsUnique(env: Env, s: Json, v: Json, r: Json, other: Json)
    requires IsSanitised(env, s, v, r) && IsSanitised(env, s, v, other)
    ensures r == other
  {
    SameShapeSymmetric(v, r);
    SameShapeTransitive(r, v, other);
    forall pos, t | At(r, pos) == Some(Str(t)) ensures At(other, pos) == Some(Str(t)) {
      TextComesFromText(r, v, pos, t);
      var was :| At(v, pos) == Some(Str(was));
      assert At(r, pos) == Some(Str(if Condemned(env, s, pos, was) then "unsupported" else was));
      assert At(other, pos) == Some(Str(if Condemned(env, s, pos, was) then "unsupported" else was));
    }
    ShapeAndTexts(r, other);
  }

  lemma {:induction false} SameShapeSymmetric(a: Json, b: Json)
    requires SameShape(a, b)
    ensures SameShape(b, a)
  {
    match a
    case Arr(xs) => forall i | 0 <= i < |xs| ensures SameShape(b.items[i], xs[i]) { SameShapeSymmetric(xs[i], b.items[i]); }
    case Obj(m) => forall f | f in m ensures SameShape(b.fields[f], m[f]) { SameShapeSymmetric(m[f], b.fields[f]); }
    case _ =>
  }

  lemma {:induction false} TextComesFromText(r: Json, v: Json, pos: seq<Key>, t: string)
    requires SameShape(r, v) && At(r, pos) == Some(Str(t))
    ensures exists was :: At(v, pos) == Some(Str(was))
    decreases |pos|
  {
    if pos == [] {
      assert At(v, pos) == Some(Str(v.text));
    } else {
      match pos[0]
      case Name(f) =>
        TextComesFromText(r.fields[f], v.fields[f], pos[1..], t);
        var was :| At(v.fields[f], pos[1..]) == Some(Str(was));
        assert At(v, pos) == Some(Str(was));
      case Index(i) =>
        TextComesFromText(r.items[i], v.items[i], pos[1..], t);
        var was :| At(v.items[i], pos[1..]) == Some(Str(was));
        assert At(v, pos) == Some(Str(was));
    }
  }

  /** A schema that owes nothing condemns nothing, so an accepted response of an operation without obligations is untouched. */
  lemma UnowedResponseIsUntouched(env: Env, reach: set<string>, op: Operation, status: nat, v: Json)
    requires Usable(env, reach) && Routed(env) <= reach && OperationCompiles(reach, op)
    requires ValidateResponse(env, reach, op, status, v).Some? && forall other :: other in op ==> !HasRoute(env, op[other])
    ensures ValidateResponse(env, reach, op, status, v).value == v
  {
    ResponseIsSanitised(env, reach, op, status, v);
    if status in op {
      var r := ValidateResponse(env, reach, op, status, v).value;
      assert SameTexts(v, r);
      ShapeAndTexts(v, r);
    }
  }

  /** End to end on plain documents, on the loop's own set: what an accepted response comes back as. */
  lemma GeneratedBoundarySanitises(env: Env, op: Operation, status: nat, v: Json)
    requires Named(env) && PlainDocument(env) && Compiles(env, Reach(env, Refs))
    requires OperationCompiles(Reach(env, Refs), op) && ValidateResponse(env, Reach(env, Refs), op, status, v).Some?
    ensures
      var r := ValidateResponse(env, Reach(env, Refs), op, status, v).value;
      && (status in op ==> IsSanitised(env, op[status], v, r))
      && (status !in op || (forall other :: other in op ==> !HasRoute(env, op[other])) ==> r == v)
  {
    PlainDocumentIsExact(env);
    ReachHoldsCategories(env, Refs);
    ResponseIsSanitised(env, Reach(env, Refs), op, status, v);
    if forall other :: other in op ==> !HasRoute(env, op[other]) {
      UnowedResponseIsUntouched(env, Reach(env, Refs), op, status, v);
    }
  }

  // ---- A categorical response ----

  /** A response whose schema is a category: a listed text is kept, any other becomes "unsupported", no other value passes. */
  lemma CategoryResponse(env: Env, reach: set<string>, category: string, status: nat, v: Json)
    requires Usable(env, reach) && category in env.categories
    ensures OperationCompiles(reach, map[status := RefTo(category)])
    ensures ValidateResponse(env, reach, map[status := RefTo(category)], status, v) ==
      if v.Str? then Some(Str(if v.text in env.categories[category] then v.text else "unsupported")) else None
  {
    RefToIsRouted(env, reach, category);
    var op: Operation := map[status := RefTo(category)];
    assert status in op && Plan(reach, op[status]).node.Some?;
  }

  // ---- The depth limit ----

  function NestedItems(category: string, depth: nat): Node {
    if depth == 0 then Category(category, false) else Items(NestedItems(category, depth - 1), false)
  }

  function NestedArray(t: string, depth: nat): Json {
    if depth == 0 then Str(t) else Arr([NestedArray(t, depth - 1)])
  }

  lemma {:induction false} NestedWithin(defs: Definitions, allowed: map<string, set<string>>, category: string, t: string, depth: nat, budget: nat)
    ensures Check(defs, allowed, NestedItems(category, depth), NestedArray(t, depth), budget).Some? <==> depth < budget
    decreases depth
  {
    if depth > 0 && budget > 0 {
      NestedWithin(defs, allowed, category, t, depth - 1, budget - 1);
      assert NestedArray(t, depth).items[0] == NestedArray(t, depth - 1);
    }
  }

  /** At the boundary a check at depth 128 is made, and one at depth 129 is refused. */
  lemma DepthLimitIs128(defs: Definitions, allowed: map<string, set<string>>, category: string, t: string, depth: nat)
    ensures Check(defs, allowed, NestedItems(category, depth), NestedArray(t, depth), TOP_BUDGET).Some? <==> depth <= 128
  {
    NestedWithin(defs, allowed, category, t, depth, TOP_BUDGET);
  }

  // ---- Keywords, one at a time ----

  /** The plan of a category's own reference. */
  ghost predicate IsReached(reach: set<string>, n: string) {
    '/' !in n && n in reach
  }

  lemma PlanOfRefTo(reach: set<string>, n: string)
    requires IsReached(reach, n)
    ensures Plan(reach, RefTo(n)) == Planned(Some(Ref(n, false)))
  {
    RefToNames(n);
  }

  function Reference(n: string, nullable: bool): Json {
    Obj(map["$ref" := Str("#/components/schemas/" + n), "nullable" := Bool(nullable)])
  }

  /** `nullable` is read beside a reference, too. */
  lemma PlanOfNullableReference(reach: set<string>, n: string, nullable: bool)
    requires IsReached(reach, n)
    ensures Plan(reach, Reference(n, nullable)) == Planned(Some(Ref(n, nullable)))
  {
    RefToNames(n);
    assert RefOf(Reference(n, nullable)) == RefOf(RefTo(n));
  }

  /** `items` is read under `type: array` and under no other type. */
  lemma PlanOfItems(reach: set<string>, n: string, kind: string)
    requires IsReached(reach, n)
    ensures Plan(reach, Obj(map["type" := Str(kind), "items" := RefTo(n)])) ==
      Planned(if kind == "array" then Some(Items(Ref(n, false), false)) else None)
  {
    var s := Obj(map["type" := Str(kind), "items" := RefTo(n)]);
    PlanOfRefTo(reach, n);
    PlainBodyPlan(reach, s);
  }

  /** A schema with neither reference, conjunct nor union arm is planned from its fields and its element. */
  lemma PlainBodyPlan(reach: set<string>, s: Json)
    requires RefOf(s).None? && Conjuncts(s) == [] && Arms(s) == [] && !BodyRaises(reach, s)
    ensures Plan(reach, s) ==
      Planned(Collapse(Nodes([], Bindings(s, PlanFields(reach, s)), PlanElement(reach, s).node), Nullable(s)))
  {
    assert Kept(PlanConjuncts(reach, s)) == [];
  }

  /** A union of references to members raises, whichever keyword spells it. */
  lemma PlanOfUnion(reach: set<string>, n: string, keyword: string)
    requires IsReached(reach, n) && (keyword == "oneOf" || keyword == "anyOf")
    ensures Plan(reach, Obj(map[keyword := Arr([RefTo(n)])])).Raises?
  {
    var s := Obj(map[keyword := Arr([RefTo(n)])]);
    PlanOfRefTo(reach, n);
    assert Arms(s)[0] == RefTo(n);
    assert BodyRaises(reach, s);
  }

  /** A schema of two planned conjuncts and nothing else. */
  lemma TwoConjuncts(reach: set<string>, s: Json, x: Node, y: Node)
    requires RefOf(s).None? && Arms(s) == [] && Properties(s) == map[] && Element(s).None? && !Nullable(s)
    requires |Conjuncts(s)| == 2
    requires Plan(reach, Conjuncts(s)[0]) == Planned(Some(x)) && Plan(reach, Conjuncts(s)[1]) == Planned(Some(y))
    ensures Plan(reach, s) == Planned(Some(All([x, y], false)))
  {
    assert PlanConjuncts(reach, s) == [Planned(Some(x)), Planned(Some(y))];
    KeptOfTwo(x, y);
    assert Bindings(s, PlanFields(reach, s)) == map[];
    assert BodyNodes(reach, s) == [x, y];
  }

  lemma KeptOfTwo(a: Node, b: Node)
    ensures Kept([Planned(Some(a)), Planned(Some(b))]) == [a, b]
  {
    assert [Planned(Some(a)), Planned(Some(b))][1..] == [Planned(Some(b))];
    assert Kept([Planned(Some(b))]) == [b] + Kept([]);
  }

  function Both(n: string, m: string): Json {
    Obj(map["allOf" := Arr([RefTo(n), RefTo(m)])])
  }

  /** Both parts of an `allOf` are checked, in order. */
  lemma PlanOfBoth(reach: set<string>, n: string, m: string)
    requires IsReached(reach, n) && IsReached(reach, m)
    ensures Plan(reach, Both(n, m)) == Planned(Some(All([Ref(n, false), Ref(m, false)], false)))
  {
    PlanOfRefTo(reach, n);
    PlanOfRefTo(reach, m);
    assert Conjuncts(Both(n, m)) == [RefTo(n), RefTo(m)];
    TwoConjuncts(reach, Both(n, m), Ref(n, false), Ref(m, false));
  }

  // ---- Required fields and null, at the boundary ----

  /** An object schema with one categorical field, listed as required or not. */
  function Record(field: string, category: string, listed: bool): Json {
    Obj(map["properties" := Obj(map[field := RefTo(category)]), "required" := Arr(if listed then [Str(field)] else [])])
  }

  lemma RecordParts(field: string, n: string, listed: bool)
    ensures HasOneField(Record(field, n, listed), field, RefTo(n))
    ensures Required(Record(field, n, listed), field) <==> listed
  {
  }

  lemma OneFieldPlan(reach: set<string>, s: Json, field: string, n: string)
    requires HasOneField(s, field, RefTo(n)) && IsReached(reach, n)
    ensures Plan(reach, s) == Planned(Some(Props(map[field := Binding(Required(s, field), Ref(n, false))], false)))
  {
    PlanOfRefTo(reach, n);
    assert !BodyRaises(reach, s);
    assert PlanFields(reach, s) == map[field := Planned(Some(Ref(n, false)))];
    assert Bindings(s, PlanFields(reach, s)) == map[field := Binding(Required(s, field), Ref(n, false))];
    assert map[field := Binding(Required(s, field), Ref(n, false))] != map[] by {
      assert field in map[field := Binding(Required(s, field), Ref(n, false))];
    }
    PlainBodyPlan(reach, s);
  }

  lemma MissingAt(defs: Definitions, allowed: map<string, set<string>>, field: string, binding: Binding, budget: nat)
    requires budget > 0
    ensures Check(defs, allowed, Props(map[field := binding], false), Obj(map[]), budget).None? <==> binding.required
  {
    var fields := map[field := binding];
    assert field in fields;
  }

  /** An object without the field is refused exactly when the field is listed under `required`. */
  lemma MissingFieldRefusedIff(env: Env, reach: set<string>, field: string, category: string, listed: bool, budget: nat)
    requires Usable(env, reach) && category in env.categories && budget > 0
    ensures Plan(reach, Record(field, category, listed)).Planned?
    ensures Validate(env, reach, Record(field, category, listed), Obj(map[]), budget).None? <==> listed
  {
    RecordParts(field, category, listed);
    OneFieldPlan(reach, Record(field, category, listed), field, category);
    MissingAt(Define(env, reach), env.categories, field, Binding(listed, Ref(category, false)), budget);
  }

  lemma NullAt(defs: Definitions, allowed: map<string, set<string>>, n: string, nullable: bool, budget: nat)
    requires n != "" && n in defs && defs[n] == Some(Category(n, false)) && budget > 0
    ensures Check(defs, allowed, Ref(n, nullable), Null, budget).Some? <==> nullable
  {
    assert Check(defs, allowed, Category(n, false), Null, budget - 1).None?;
  }

  /** Null is accepted by a categorical reference exactly under `nullable: true`. */
  lemma NullAcceptedIff(env: Env, reach: set<string>, category: string, nullable: bool, budget: nat)
    requires Usable(env, reach) && category in env.categories && budget > 0
    ensures Plan(reach, Reference(category, nullable)).Planned?
    ensures Validate(env, reach, Reference(category, nullable), Null, budget).Some? <==> nullable
  {
    PlanOfNullableReference(reach, category, nullable);
    NullAt(Define(env, reach), env.categories, category, nullable, budget);
  }
}
