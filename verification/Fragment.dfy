/** Where the two reference walks agree: the fragment on which the whole generator is faithful. */
module Fragment {
  import opened Schemas
  import opened Reachability
  import opened Plans
  import opened Obligations
  import opened ResponseCheck
  import opened Contracts

  /**
   * The shapes both walks treat alike: `$ref` without structural siblings, `allOf`, `properties` without a
   * field named like a keyword, `items` under `type: array`, one union keyword at a time, and no reference
   * hidden under another keyword such as `additionalProperties`.
   */
  ghost predicate Plain(s: Json) {
    match s
    case Arr(_) => false
    case Obj(m) =>
      if "$ref" in m then m["$ref"].Str? && m.Keys !! STRUCTURAL
      else if m.Keys !! STRUCTURAL then Refs(s) == {}
      else
        && PlainList(s, "allOf") && PlainList(s, "oneOf") && PlainList(s, "anyOf")
        && !("oneOf" in m && "anyOf" in m)
        && ("properties" in m ==>
              && m["properties"].Obj?
              && m["properties"].fields.Keys !! STRUCTURAL + {"$ref"}
              && forall f :: f in m["properties"].fields ==> Plain(m["properties"].fields[f]))
        && ("items" in m ==>
              if "type" in m && m["type"] == Str("array") then Plain(m["items"]) else Refs(m["items"]) == {})
    case _ => true
  }

  ghost predicate PlainList(s: Json, key: string)
    requires s.Obj?
  {
    key in s.fields ==>
      s.fields[key].Arr? && forall i :: 0 <= i < |s.fields[key].items| ==> Plain(s.fields[key].items[i])
  }

  /** A reference the compiler follows, or one inside a union arm on its way. */
  ghost predicate Sees(s: Json, n: string) {
    n in PlanRefs(s) || exists a :: IsAlternative(s, a) && n in PlanRefs(a)
  }

  ghost predicate SeesBelow(s: Json, n: string) {
    || (exists i :: 0 <= i < |Conjuncts(s)| && Sees(Conjuncts(s)[i], n))
    || (exists i :: 0 <= i < |Arms(s)| && Sees(Arms(s)[i], n))
    || (exists f :: f in Properties(s) && Sees(Properties(s)[f], n))
    || (Element(s).Some? && Sees(Element(s).value, n))
  }

  lemma {:induction false} SeesBody(s: Json, n: string)
    requires RefOf(s).None?
    ensures Sees(s, n) <==> SeesBelow(s, n)
  {
    assert n in PlanRefs(s) <==> Hits({n}, s);
    HitsBody({n}, s);
    TouchesBody({n}, s);
    SeesIsHits(s, n);
    forall i | 0 <= i < |Conjuncts(s)| ensures Sees(Conjuncts(s)[i], n) <==> HitsOrTouches(Conjuncts(s)[i], n) {
      SeesIsHits(Conjuncts(s)[i], n);
    }
    forall i | 0 <= i < |Arms(s)| ensures Sees(Arms(s)[i], n) <==> HitsOrTouches(Arms(s)[i], n) {
      SeesIsHits(Arms(s)[i], n);
    }
    forall f | f in Properties(s) ensures Sees(Properties(s)[f], n) <==> HitsOrTouches(Properties(s)[f], n) {
      SeesIsHits(Properties(s)[f], n);
    }
    if Element(s).Some? {
      SeesIsHits(Element(s).value, n);
    }
  }

  ghost predicate HitsOrTouches(s: Json, n: string) {
    Hits({n}, s) || TouchesUnion({n}, s)
  }

  lemma {:induction false} SeesIsHits(s: Json, n: string)
    ensures Sees(s, n) <==> HitsOrTouches(s, n)
  {
    if a :| IsAlternative(s, a) && n in PlanRefs(a) {
      assert n in {n};
      assert Hits({n}, a);
    }
  }

  ghost predicate RefsUnder(s: Json, key: string, n: string) {
    s.Obj? && key in s.fields && n in Refs(s.fields[key])
  }

  lemma {:induction false} RefsOfList(xs: seq<Json>, n: string)
    ensures n in Refs(Arr(xs)) <==> exists i :: 0 <= i < |xs| && n in Refs(xs[i])
  {
  }

  lemma {:induction false} RefsOfFieldMap(m: map<string, Json>, n: string)
    requires m.Keys !! STRUCTURAL + {"$ref"}
    ensures n in Refs(Obj(m)) <==> exists f :: f in m && n in Refs(m[f])
  {
    var s := Obj(m);
    assert "$ref" in STRUCTURAL + {"$ref"};
    assert RefOf(s).None?;
    if f :| f in m && n in Refs(m[f]) {
      assert f in m.Keys;
    }
  }

  lemma {:induction false} RefsOfBody(s: Json, n: string)
    requires s.Obj? && RefOf(s).None? && !(s.fields.Keys !! STRUCTURAL)
    ensures n in Refs(s) <==> exists key :: key in STRUCTURAL && RefsUnder(s, key, n)
  {
    assert !(s.fields.Keys !! STRUCTURAL + {"$ref"});
    if key :| key in STRUCTURAL && RefsUnder(s, key, n) {
      assert key in s.fields.Keys;
    }
  }

  /** On plain schemas the raw walk finds exactly the references the compiler meets. */
  lemma {:induction false} PlainRefs(s: Json, n: string)
    requires Plain(s)
    ensures n in Refs(s) <==> Sees(s, n)
    decreases s, 1
  {
    if s.Obj? && RefOf(s).None? {
      SeesBody(s, n);
      if s.fields.Keys !! STRUCTURAL {
        PlainLeaf(s, n);
      } else {
        PlainBodyRefs(s, n);
      }
    } else if s.Obj? {
      PlainReference(s, n);
    } else {
      SeesBody(s, n);
    }
  }

  /** A plain schema without `$ref` and with structural keywords. */
  ghost predicate PlainBody(s: Json) {
    s.Obj? && Plain(s) && RefOf(s).None? && !(s.fields.Keys !! STRUCTURAL)
  }

  lemma {:induction false} PlainParts(s: Json)
    requires PlainBody(s)
    ensures PlainList(s, "allOf") && PlainList(s, "oneOf") && PlainList(s, "anyOf")
    ensures !("oneOf" in s.fields && "anyOf" in s.fields)
    ensures "properties" in s.fields ==> s.fields["properties"] == Obj(Properties(s))
    ensures Properties(s).Keys !! STRUCTURAL + {"$ref"}
    ensures forall f :: f in Properties(s) ==> Plain(Properties(s)[f])
    ensures "items" in s.fields ==>
      if Element(s).Some? then Plain(Element(s).value) else Refs(s.fields["items"]) == {}
  {
  }

  lemma {:induction false} PlainBodyRefs(s: Json, n: string)
    requires PlainBody(s)
    ensures n in Refs(s) <==> SeesBelow(s, n)
    decreases s, 0, 2
  {
    PlainParts(s);
    RefsOfBody(s, n);
    PlainListRefs(s, "allOf", n);
    PlainArmRefs(s, n);
    PlainFieldRefs(s, n);
    PlainItemRefs(s, n);
    StructuralKeys(s, n);
    assert Conjuncts(s) == ListAt(s, "allOf");
  }

  lemma {:induction false} PlainArmRefs(s: Json, n: string)
    requires PlainBody(s)
    ensures RefsUnder(s, "oneOf", n) || RefsUnder(s, "anyOf", n) <==>
      exists i :: 0 <= i < |Arms(s)| && Sees(Arms(s)[i], n)
    decreases s, 0, 1
  {
    PlainParts(s);
    if "oneOf" in s.fields {
      PlainListRefs(s, "oneOf", n);
      assert Arms(s) == ListAt(s, "oneOf") && !RefsUnder(s, "anyOf", n);
    } else {
      PlainListRefs(s, "anyOf", n);
      assert Arms(s) == ListAt(s, "anyOf") && !RefsUnder(s, "oneOf", n);
    }
  }

  lemma {:induction false} StructuralKeys(s: Json, n: string)
    ensures (exists key :: key in STRUCTURAL && RefsUnder(s, key, n)) <==>
      || RefsUnder(s, "allOf", n) || RefsUnder(s, "oneOf", n) || RefsUnder(s, "anyOf", n)
      || RefsUnder(s, "properties", n) || RefsUnder(s, "items", n)
  {
    assert "allOf" in STRUCTURAL && "oneOf" in STRUCTURAL && "anyOf" in STRUCTURAL
      && "properties" in STRUCTURAL && "items" in STRUCTURAL;
  }

  lemma PlainLeaf(s: Json, n: string)
    requires s.Obj? && RefOf(s).None? && Plain(s) && s.fields.Keys !! STRUCTURAL
    ensures n !in Refs(s) && !SeesBelow(s, n)
  {
    assert "allOf" in STRUCTURAL && "oneOf" in STRUCTURAL && "anyOf" in STRUCTURAL
      && "properties" in STRUCTURAL && "items" in STRUCTURAL;
    assert forall key :: key in STRUCTURAL ==> key !in s.fields;
  }

  lemma {:induction false} PlainReference(s: Json, n: string)
    requires s.Obj? && RefOf(s).Some? && Plain(s)
    ensures n in Refs(s) <==> Sees(s, n)
  {
    assert forall a :: !IsAlternative(s, a);
    assert PlanRefs(s) == {RefOf(s).value};
  }

  lemma {:induction false} PlainListRefs(s: Json, key: string, n: string)
    requires s.Obj? && PlainList(s, key)
    ensures RefsUnder(s, key, n) <==> exists i :: 0 <= i < |ListAt(s, key)| && Sees(ListAt(s, key)[i], n)
    decreases s, 0, 0
  {
    if key in s.fields {
      var xs := s.fields[key].items;
      RefsOfList(xs, n);
      assert s.fields[key] == Arr(xs) && ListAt(s, key) == xs;
      forall i | 0 <= i < |xs| ensures n in Refs(xs[i]) <==> Sees(xs[i], n) {
        PlainRefs(xs[i], n);
      }
    }
  }

  lemma {:induction false} PlainFieldRefs(s: Json, n: string)
    requires PlainBody(s)
    ensures RefsUnder(s, "properties", n) <==> exists f :: f in Properties(s) && Sees(Properties(s)[f], n)
    decreases s, 0, 0
  {
    PlainParts(s);
    var m := Properties(s);
    RefsOfFieldMap(m, n);
    forall f | f in m ensures n in Refs(m[f]) <==> Sees(m[f], n) {
      PlainRefs(m[f], n);
    }
  }

  lemma {:induction false} PlainItemRefs(s: Json, n: string)
    requires PlainBody(s)
    ensures RefsUnder(s, "items", n) <==> Element(s).Some? && Sees(Element(s).value, n)
    decreases s, 0, 0
  {
    PlainParts(s);
    if Element(s).Some? {
      PlainRefs(Element(s).value, n);
    }
  }

  // ---- Plain documents are pruned exactly ----

  ghost predicate PlainDocument(env: Env) {
    forall n :: n in env.schemas && n !in env.categories ==> Plain(env.schemas[n])
  }

  lemma PlanRefsAreRefs(env: Env, n: string)
    requires PlainDocument(env) && n in env.schemas && n !in env.categories
    ensures PlanRefs(env.schemas[n]) <= Refs(env.schemas[n])
  {
    forall m | m in PlanRefs(env.schemas[n]) ensures m in Refs(env.schemas[n]) {
      PlainRefs(env.schemas[n], m);
      assert Sees(env.schemas[n], m);
    }
  }

  /** Inside the computed set, a reference the raw walk finds is one the compiler follows. */
  lemma RefInsideIsPlanRef(env: Env, n: string, m: string)
    requires PlainDocument(env) && Compiles(env, Reach(env, Refs))
    requires n in Reach(env, Refs) && n !in env.categories && n in env.schemas
    requires m in Reach(env, Refs) && m in Refs(env.schemas[n])
    ensures m in PlanRefs(env.schemas[n])
  {
    var s := env.schemas[n];
    PlainRefs(s, m);
    PlanOutcome(Reach(env, Refs), s);
    if a :| IsAlternative(s, a) && m in PlanRefs(a) {
      assert Hits(Reach(env, Refs), a);
      assert false;
    }
  }

  lemma {:induction false} RefChainIsRouted(env: Env, p: seq<string>)
    requires PlainDocument(env) && Compiles(env, Reach(env, Refs)) && Chain(env, Refs, p)
    ensures p[0] in Routed(env)
    decreases |p|
  {
    ReachHoldsCategories(env, PlanRefs);
    if p[0] !in env.categories {
      ChainMembers(env, p);
      RefChainIsRouted(env, p[1..]);
      RefInsideIsPlanRef(env, p[0], p[1]);
      ReachStep(env, PlanRefs, p[0], p[1]);
    }
  }

  lemma ChainMembers(env: Env, p: seq<string>)
    requires Chain(env, Refs, p) && p[0] !in env.categories
    ensures |p| > 1 && p[0] in env.schemas && p[1] in Refs(env.schemas[p[0]]) && Chain(env, Refs, p[1..])
    ensures p[0] in Reach(env, Refs) && p[1] in Reach(env, Refs)
  {
    ChainHeadIsReached(env, Refs, p);
    ChainHeadIsReached(env, Refs, p[1..]);
  }

  lemma PlanRefsStayInside(env: Env)
    requires PlainDocument(env)
    ensures Closed(env, PlanRefs, Reach(env, Refs))
  {
    ReachHoldsCategories(env, Refs);
    forall n | n in env.schemas && PlanRefs(env.schemas[n]) * Reach(env, Refs) != {} ensures n in Reach(env, Refs) {
      if n !in env.categories {
        PlanRefsAreRefs(env, n);
        var m :| m in PlanRefs(env.schemas[n]) * Reach(env, Refs);
        ReachStep(env, Refs, n, m);
      }
    }
  }

  lemma ReachIsRouted(env: Env)
    requires PlainDocument(env) && Compiles(env, Reach(env, Refs))
    ensures Reach(env, Refs) <= Routed(env)
  {
    forall n | n in Reach(env, Refs) ensures n in Routed(env) {
      var p :| Chain(env, Refs, p) && p[0] == n;
      RefChainIsRouted(env, p);
    }
  }

  /** On a plain document that compiles, the loop computes exactly the routed components. */
  lemma PlainDocumentIsExact(env: Env)
    requires PlainDocument(env) && Compiles(env, Reach(env, Refs))
    ensures Reach(env, Refs) == Routed(env)
  {
    ReachIsRouted(env);
    ReachHoldsCategories(env, Refs);
    PlanRefsStayInside(env);
    ReachIsLeast(env, PlanRefs, Reach(env, Refs));
  }

  /**
   * End to end, on every plain document with any `$ref` cycles: the plan compiled from the loop's own set
   * accepts a value exactly when the full schemas' obligations hold of it, within the depth limit.
   */
  lemma GeneratedPlanIsFaithful(env: Env, s: Json, v: Json, budget: nat)
    requires Named(env) && PlainDocument(env) && Compiles(env, Reach(env, Refs))
    requires Plan(Reach(env, Refs), s).Planned?
    ensures Validate(env, Reach(env, Refs), s, v, budget).Some? <==>
      AllMet(env, s, v) && !PlanTooDeep(env, Reach(env, Refs), s, v, budget)
  {
    PlainDocumentIsExact(env);
    ReachHoldsCategories(env, Refs);
    PlanAcceptsIffAllMet(env, Reach(env, Refs), s, v, budget);
  }

  /**
   * The same for whole operations: on a plain document the boundary accepts a response exactly when its operation owes
   * no category, or its status is declared and the value meets that schema's obligations within the depth limit.
   */
  lemma GeneratedBoundaryIsFaithful(env: Env, op: Operation, status: nat, v: Json)
    requires Named(env) && PlainDocument(env) && Compiles(env, Reach(env, Refs))
    requires OperationCompiles(Reach(env, Refs), op)
    ensures ValidateResponse(env, Reach(env, Refs), op, status, v).Some? <==>
      || (forall other :: other in op ==> !HasRoute(env, op[other]))
      || (status in op && AllMet(env, op[status], v) && !PlanTooDeep(env, Reach(env, Refs), op[status], v, TOP_BUDGET))
  {
    PlainDocumentIsExact(env);
    ReachHoldsCategories(env, Refs);
    ResponseAcceptedIff(env, Reach(env, Refs), op, status, v);
  }
}
