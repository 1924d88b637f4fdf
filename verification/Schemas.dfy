/** OpenAPI documents as raw JSON, and the two ways `response_source` looks for references in them. */
module Schemas {
  import opened Prelude

  datatype Json =
    | Null
    | Bool(flag: bool)
    | Number(number: real)
    | Str(text: string)
    | Arr(items: seq<Json>)
    | Obj(fields: map<string, Json>)

  /** The registered categories with their enum values, and the component schemas. */
  datatype Env = Env(categories: map<string, set<string>>, schemas: map<string, Json>)

  const STRUCTURAL: set<string> := {"properties", "items", "allOf", "oneOf", "anyOf"}

  /** Component names are nonempty and have no slash, so a `$ref` can name every one of them. */
  ghost predicate Named(env: Env) {
    forall n :: n in env.categories.Keys + env.schemas.Keys ==> n != "" && '/' !in n
  }

  // ---- Reading one schema object ----

  function AfterLastSlash(t: string): string {
    if |t| == 0 || t[|t| - 1] == '/' then "" else AfterLastSlash(t[..|t| - 1]) + [t[|t| - 1]]
  }

  function RefOf(s: Json): Option<string> {
    if s.Obj? && "$ref" in s.fields && s.fields["$ref"].Str?
    then Some(AfterLastSlash(s.fields["$ref"].text)) else None
  }

  predicate Nullable(s: Json) {
    s.Obj? && "nullable" in s.fields && s.fields["nullable"] == Bool(true)
  }

  function ListAt(s: Json, key: string): (r: seq<Json>)
    ensures forall i :: 0 <= i < |r| ==> r[i] < s
  {
    if s.Obj? && key in s.fields && s.fields[key].Arr? then s.fields[key].items else []
  }

  function Conjuncts(s: Json): (r: seq<Json>)
    ensures forall i :: 0 <= i < |r| ==> r[i] < s
  {
    ListAt(s, "allOf")
  }

  /** `schema.get("oneOf", schema.get("anyOf"))`: `anyOf` is not read when `oneOf` is present. */
  function Arms(s: Json): (r: seq<Json>)
    ensures forall i :: 0 <= i < |r| ==> r[i] < s
  {
    if s.Obj? && "oneOf" in s.fields then ListAt(s, "oneOf") else ListAt(s, "anyOf")
  }

  function Properties(s: Json): (r: map<string, Json>)
    ensures forall f :: f in r ==> r[f] < s
  {
    if s.Obj? && "properties" in s.fields && s.fields["properties"].Obj?
    then s.fields["properties"].fields else map[]
  }

  predicate Required(s: Json, field: string) {
    Str(field) in ListAt(s, "required")
  }

  /** The element schema, read only under `type: array`. */
  function Element(s: Json): (r: Option<Json>)
    ensures r.Some? ==> r.value < s
  {
    if s.Obj? && "type" in s.fields && s.fields["type"] == Str("array") && "items" in s.fields
    then Some(s.fields["items"]) else None
  }

  // ---- The two reference walks ----

  /** The raw-dict walk `refs`: structural keywords only, or every value when none of them is present. */
  function Refs(v: Json): set<string> {
    match v
    case Obj(m) =>
      (if RefOf(v).Some? then {RefOf(v).value} else {}) +
      (set k, n | k in m.Keys && (k in STRUCTURAL || m.Keys !! STRUCTURAL + {"$ref"}) && n in Refs(m[k]) :: n)
    case Arr(xs) => set i, n | 0 <= i < |xs| && n in Refs(xs[i]) :: n
    case _ => {}
  }

  /** The references the compiler `plan` follows. */
  function PlanRefs(s: Json): set<string> {
    if RefOf(s).Some? then {RefOf(s).value} else
      (set i, n | 0 <= i < |Conjuncts(s)| && n in PlanRefs(Conjuncts(s)[i]) :: n) +
      (set f, n | f in Properties(s) && n in PlanRefs(Properties(s)[f]) :: n) +
      (if Element(s).Some? then PlanRefs(Element(s).value) else {})
  }

  // ---- A schema that refers to one component ----

  function RefTo(name: string): Json {
    Obj(map["$ref" := Str("#/components/schemas/" + name)])
  }

  lemma {:induction false} AfterLastSlashOfTail(prefix: string, name: string)
    requires '/' !in name
    ensures AfterLastSlash(prefix + "/" + name) == name
  {
    var t := prefix + "/" + name;
    if name == "" {
      assert t[|t| - 1] == '/';
    } else {
      var init := name[..|name| - 1];
      AfterLastSlashOfTail(prefix, init);
      assert t[..|t| - 1] == prefix + "/" + init;
      assert t[|t| - 1] == name[|name| - 1];
    }
  }

  lemma RefToNames(name: string)
    requires '/' !in name
    ensures RefOf(RefTo(name)) == Some(name)
  {
    AfterLastSlashOfTail("#/components/schemas", name);
    assert "#/components/schemas/" + name == "#/components/schemas" + "/" + name;
  }
}
