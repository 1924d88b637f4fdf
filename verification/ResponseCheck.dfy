/** The generated definitions and the browser's `checkNode`, which runs a plan over a response value. */
module ResponseCheck {
  import opened Prelude
  import opened Schemas
  import opened Plans

  type Definitions = map<string, Option<Node>>

  /** `checkNode` throws once its depth exceeds 128, so a top-level call has 129 levels to spend. */
  const TOP_BUDGET: nat := 129

  const UNSUPPORTED: string := "unsupported"

  // ---- Definitions ----

  /** No reachable component raises, so the generator gets as far as writing its definitions. */
  ghost predicate Compiles(env: Env, reach: set<string>) {
    forall n :: n in reach && n !in env.categories ==>
      n in env.schemas && Plan(reach, env.schemas[n]).Planned?
  }

  function Define(env: Env, reach: set<string>): (defs: Definitions)
    requires Compiles(env, reach)
  {
    map n | n in reach ::
      if n in env.categories then Some(Category(n, false)) else Plan(reach, env.schemas[n]).node
  }

  // ---- checkNode ----

  function Classify(allowed: map<string, set<string>>, c: string, t: string): string {
    if c in allowed && t in allowed[c] then t else UNSUPPORTED
  }

  /** The checked value, or None where `checkNode` throws. */
  function Check(defs: Definitions, allowed: map<string, set<string>>, node: Node, v: Json, budget: nat): Option<Json>
    decreases budget, 0
  {
    if budget == 0 then None
    else if v.Null? && node.nullable then Some(v)
    else match node
      case Category(c, _) => if v.Str? then Some(Str(Classify(allowed, c, v.text))) else None
      case Ref(n, _) =>
        if n == "" then Some(v)
        else if n in defs && defs[n].Some? then Check(defs, allowed, defs[n].value, v, budget - 1)
        else None
      case All(nodes, _) => CheckAll(defs, allowed, nodes, v, budget - 1)
      case Items(item, _) =>
        if !v.Arr? || exists i :: 0 <= i < |v.items| && Check(defs, allowed, item, v.items[i], budget - 1).None?
        then None
        else Some(Arr(seq(|v.items|, i requires 0 <= i < |v.items| =>
          Check(defs, allowed, item, v.items[i], budget - 1).value)))
      case Props(fields, _) =>
        if !v.Obj?
          || (exists f :: f in fields && f !in v.fields && fields[f].required)
          || (exists f :: f in fields && f in v.fields
                && Check(defs, allowed, fields[f].node, v.fields[f], budget - 1).None?)
        then None
        else Some(Obj(map f | f in v.fields ::
          if f in fields then Check(defs, allowed, fields[f].node, v.fields[f], budget - 1).value
          else v.fields[f]))
  }

  /** The loop over `node.all`: each child sees the value its predecessors returned. */
  function CheckAll(defs: Definitions, allowed: map<string, set<string>>, nodes: seq<Node>, v: Json, budget: nat): Option<Json>
    decreases budget, 1 + |nodes|
  {
    if nodes == [] then Some(v) else
      match Check(defs, allowed, nodes[0], v, budget)
      case None => None
      case Some(w) => CheckAll(defs, allowed, nodes[1..], w, budget)
  }

  /** Some walk of the plan over the value is longer than the budget. */
  ghost predicate TooDeep(defs: Definitions, node: Node, v: Json, budget: nat)
    decreases budget
  {
    budget == 0 || (!(v.Null? && node.nullable) &&
      match node
      case Category(_, _) => false
      case Ref(n, _) => n != "" && n in defs && defs[n].Some? && TooDeep(defs, defs[n].value, v, budget - 1)
      case All(nodes, _) => exists j :: 0 <= j < |nodes| && TooDeep(defs, nodes[j], v, budget - 1)
      case Items(item, _) =>
        v.Arr? && exists i :: 0 <= i < |v.items| && TooDeep(defs, item, v.items[i], budget - 1)
      case Props(fields, _) =>
        v.Obj? && exists f :: f in fields && f in v.fields && TooDeep(defs, fields[f].node, v.fields[f], budget - 1))
  }

  // ---- Shape ----

  /** Equal but for the text of strings. */
  ghost predicate SameShape(a: Json, b: Json) {
    match a
    case Str(_) => b.Str?
    case Arr(xs) => b.Arr? && |xs| == |b.items| && forall i :: 0 <= i < |xs| ==> SameShape(xs[i], b.items[i])
    case Obj(m) => b.Obj? && m.Keys == b.fields.Keys && forall f :: f in m ==> SameShape(m[f], b.fields[f])
    case _ => a == b
  }

  lemma {:induction false} SameShapeReflexive(a: Json)
    ensures SameShape(a, a)
  {
    match a
    case Arr(xs) => forall i | 0 <= i < |xs| ensures SameShape(xs[i], xs[i]) { SameShapeReflexive(xs[i]); }
    case Obj(m) => forall f | f in m ensures SameShape(m[f], m[f]) { SameShapeReflexive(m[f]); }
    case _ =>
  }

  lemma {:induction false} SameShapeTransitive(a: Json, b: Json, c: Json)
    requires SameShape(a, b) && SameShape(b, c)
    ensures SameShape(a, c)
  {
    match a
    case Arr(xs) =>
      forall i | 0 <= i < |xs| ensures SameShape(xs[i], c.items[i]) {
        SameShapeTransitive(xs[i], b.items[i], c.items[i]);
      }
    case Obj(m) =>
      forall f | f in m ensures SameShape(m[f], c.fields[f]) {
        SameShapeTransitive(m[f], b.fields[f], c.fields[f]);
      }
    case _ =>
  }

  /** A check changes nothing but the text of strings. */
  lemma {:induction false} CheckKeepsShape(defs: Definitions, allowed: map<string, set<string>>, node: Node, v: Json, budget: nat)
    requires Check(defs, allowed, node, v, budget).Some?
    ensures SameShape(v, Check(defs, allowed, node, v, budget).value)
    decreases budget, 0
  {
    SameShapeReflexive(v);
    if !(v.Null? && node.nullable) {
      match node
      case Category(_, _) =>
      case Ref(n, _) =>
        if n != "" { CheckKeepsShape(defs, allowed, defs[n].value, v, budget - 1); }
      case All(nodes, _) => CheckAllKeepsShape(defs, allowed, nodes, v, budget - 1);
      case Items(item, _) =>
        forall i | 0 <= i < |v.items|
          ensures SameShape(v.items[i], Check(defs, allowed, item, v.items[i], budget - 1).value)
        {
          CheckKeepsShape(defs, allowed, item, v.items[i], budget - 1);
        }
      case Props(fields, _) =>
        forall f | f in v.fields && f in fields
          ensures SameShape(v.fields[f], Check(defs, allowed, fields[f].node, v.fields[f], budget - 1).value)
        {
          CheckKeepsShape(defs, allowed, fields[f].node, v.fields[f], budget - 1);
        }
        forall f | f in v.fields ensures SameShape(v.fields[f], v.fields[f]) {
          SameShapeReflexive(v.fields[f]);
        }
    }
  }

  lemma {:induction false} CheckAllKeepsShape(defs: Definitions, allowed: map<string, set<string>>, nodes: seq<Node>, v: Json, budget: nat)
    requires CheckAll(defs, allowed, nodes, v, budget).Some?
    ensures SameShape(v, CheckAll(defs, allowed, nodes, v, budget).value)
    decreases budget, 1 + |nodes|
  {
    if nodes == [] {
      SameShapeReflexive(v);
    } else {
      var w := Check(defs, allowed, nodes[0], v, budget).value;
      CheckKeepsShape(defs, allowed, nodes[0], v, budget);
      CheckAllKeepsShape(defs, allowed, nodes[1..], w, budget);
      SameShapeTransitive(v, w, CheckAll(defs, allowed, nodes, v, budget).value);
    }
  }

  // ---- The loop over `all`, child by child ----

  lemma {:induction false} AllPasses(defs: Definitions, allowed: map<string, set<string>>, nodes: seq<Node>, v: Json, budget: nat, j: nat)
    returns (w: Json)
    requires j < |nodes| && CheckAll(defs, allowed, nodes, v, budget).Some?
    ensures SameShape(v, w) && Check(defs, allowed, nodes[j], w, budget).Some?
    decreases j
  {
    if j == 0 {
      w := v;
      SameShapeReflexive(v);
    } else {
      var u := Check(defs, allowed, nodes[0], v, budget).value;
      CheckKeepsShape(defs, allowed, nodes[0], v, budget);
      w := AllPasses(defs, allowed, nodes[1..], u, budget, j - 1);
      SameShapeTransitive(v, u, w);
    }
  }

  lemma {:induction false} AllFails(defs: Definitions, allowed: map<string, set<string>>, nodes: seq<Node>, v: Json, budget: nat)
    returns (j: nat, w: Json)
    requires CheckAll(defs, allowed, nodes, v, budget).None?
    ensures j < |nodes| && SameShape(v, w) && Check(defs, allowed, nodes[j], w, budget).None?
    decreases |nodes|
  {
    if Check(defs, allowed, nodes[0], v, budget).None? {
      j, w := 0, v;
      SameShapeReflexive(v);
    } else {
      var u := Check(defs, allowed, nodes[0], v, budget).value;
      CheckKeepsShape(defs, allowed, nodes[0], v, budget);
      j, w := AllFails(defs, allowed, nodes[1..], u, budget);
      j := j + 1;
      SameShapeTransitive(v, u, w);
    }
  }

  // ---- Depth ----

  lemma {:induction false} TooDeepByShape(defs: Definitions, node: Node, v: Json, w: Json, budget: nat)
    requires SameShape(v, w)
    ensures TooDeep(defs, node, v, budget) <==> TooDeep(defs, node, w, budget)
    decreases budget
  {
    if budget > 0 && !(v.Null? && node.nullable) {
      match node
      case Category(_, _) =>
      case Ref(n, _) =>
        if n in defs && defs[n].Some? { TooDeepByShape(defs, defs[n].value, v, w, budget - 1); }
      case All(nodes, _) =>
        forall j | 0 <= j < |nodes|
          ensures TooDeep(defs, nodes[j], v, budget - 1) <==> TooDeep(defs, nodes[j], w, budget - 1)
        {
          TooDeepByShape(defs, nodes[j], v, w, budget - 1);
        }
      case Items(item, _) =>
        if v.Arr? {
          forall i | 0 <= i < |v.items|
            ensures TooDeep(defs, item, v.items[i], budget - 1) <==> TooDeep(defs, item, w.items[i], budget - 1)
          {
            TooDeepByShape(defs, item, v.items[i], w.items[i], budget - 1);
          }
        }
      case Props(fields, _) =>
        if v.Obj? {
          forall f | f in fields && f in v.fields
            ensures TooDeep(defs, fields[f].node, v.fields[f], budget - 1) <==>
              TooDeep(defs, fields[f].node, w.fields[f], budget - 1)
          {
            TooDeepByShape(defs, fields[f].node, v.fields[f], w.fields[f], budget - 1);
          }
        }
    }
  }

  lemma {:induction false} AcceptedIsNotTooDeep(defs: Definitions, allowed: map<string, set<string>>, node: Node, v: Json, budget: nat)
    requires Check(defs, allowed, node, v, budget).Some?
    ensures !TooDeep(defs, node, v, budget)
    decreases budget
  {
    if !(v.Null? && node.nullable) {
      match node
      case Category(_, _) =>
      case Ref(n, _) =>
        if n != "" { AcceptedIsNotTooDeep(defs, allowed, defs[n].value, v, budget - 1); }
      case All(nodes, _) =>
        forall j | 0 <= j < |nodes| ensures !TooDeep(defs, nodes[j], v, budget - 1) {
          var w := AllPasses(defs, allowed, nodes, v, budget - 1, j);
          AcceptedIsNotTooDeep(defs, allowed, nodes[j], w, budget - 1);
          TooDeepByShape(defs, nodes[j], v, w, budget - 1);
        }
      case Items(item, _) =>
        forall i | 0 <= i < |v.items| ensures !TooDeep(defs, item, v.items[i], budget - 1) {
          AcceptedIsNotTooDeep(defs, allowed, item, v.items[i], budget - 1);
        }
      case Props(fields, _) =>
        forall f | f in fields && f in v.fields
          ensures !TooDeep(defs, fields[f].node, v.fields[f], budget - 1)
        {
          AcceptedIsNotTooDeep(defs, allowed, fields[f].node, v.fields[f], budget - 1);
        }
    }
  }
}
