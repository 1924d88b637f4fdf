/** The YAML renderers of the overrides, as trees before printing. */
module Renderers {
  import opened Prelude
  import opened Overrides
  import opened Sorting
  import opened Listings
  import opened YamlText

  datatype Yaml = Text(text: string) | Int(number: int) | List(items: seq<Yaml>) | Dict(fields: map<string, Yaml>)

  const REQUEST_DEFAULTS: Values := Values("100m", "128Mi")
  const LIMIT_DEFAULTS: Values := Values("500m", "512Mi")

  // ---- Resources ----

  function OrDefault(value: string, fallback: string): string {
    if value == "" then fallback else value
  }

  /** The quantities in force: what is given, or the default. */
  function Effective(given: Values, defaults: Values): Values {
    Values(OrDefault(given.cpu, defaults.cpu), OrDefault(given.memory, defaults.memory))
  }

  function ResourcesOf(o: AgentOverrides): Resources {
    if o.resources.Some? then o.resources.value else Resources(Values("", ""), Values("", ""))
  }

  function ValuesTree(v: Values): Yaml {
    Dict(map["cpu" := Text(v.cpu), "memory" := Text(v.memory)])
  }

  function ResourcesTree(o: AgentOverrides): Yaml {
    Dict(map["requests" := ValuesTree(Effective(ResourcesOf(o).requests, REQUEST_DEFAULTS)),
             "limits" := ValuesTree(Effective(ResourcesOf(o).limits, LIMIT_DEFAULTS))])
  }

  /** `resourcesYAML`: default maps, overwritten field by field. */
  method RenderResources(o: AgentOverrides) returns (tree: Yaml)
    ensures tree == ResourcesTree(o)
  {
    var requests := map["cpu" := Text("100m"), "memory" := Text("128Mi")];
    var limits := map["cpu" := Text("500m"), "memory" := Text("512Mi")];
    if o.resources.Some? {
      var r := o.resources.value;
      if r.requests.cpu != "" { requests := requests["cpu" := Text(r.requests.cpu)]; }
      if r.requests.memory != "" { requests := requests["memory" := Text(r.requests.memory)]; }
      if r.limits.cpu != "" { limits := limits["cpu" := Text(r.limits.cpu)]; }
      if r.limits.memory != "" { limits := limits["memory" := Text(r.limits.memory)]; }
    }
    assert Dict(requests) == ValuesTree(Effective(ResourcesOf(o).requests, REQUEST_DEFAULTS));
    assert Dict(limits) == ValuesTree(Effective(ResourcesOf(o).limits, LIMIT_DEFAULTS));
    tree := Dict(map["requests" := Dict(requests), "limits" := Dict(limits)]);
  }

  // ---- Tolerations ----

  function PlatformToleration(key: string): Yaml {
    Dict(map["key" := Text(key), "operator" := Text("Exists"), "effect" := Text("NoSchedule")])
  }

  function Given(key: string, value: string): map<string, Yaml> {
    if value == "" then map[] else map[key := Text(value)]
  }

  function TolerationHead(t: Toleration): map<string, Yaml> {
    map["key" := Text(t.key), "operator" := Text(OrDefault(t.operator, "Equal"))]
  }

  function GivenSeconds(t: Toleration): map<string, Yaml> {
    if t.seconds.Some? then map["tolerationSeconds" := Int(t.seconds.value)] else map[]
  }

  function TolerationTree(t: Toleration): Yaml {
    Dict(TolerationHead(t) + Given("value", t.value) + Given("effect", t.effect) + GivenSeconds(t))
  }

  function TolerationTrees(ts: seq<Toleration>): seq<Yaml> {
    seq(|ts|, i requires 0 <= i < |ts| => TolerationTree(ts[i]))
  }

  method PutIfGiven(item: map<string, Yaml>, key: string, value: string) returns (r: map<string, Yaml>)
    ensures r == item + Given(key, value)
  {
    r := item;
    if value != "" { r := item[key := Text(value)]; }
  }

  method PutHead(t: Toleration) returns (item: map<string, Yaml>)
    ensures item == TolerationHead(t)
  {
    var operator := t.operator;
    if operator == "" { operator := "Equal"; }
    item := map["key" := Text(t.key), "operator" := Text(operator)];
  }

  /** One pass of the loop in `tolerationsYAML`. */
  method RenderToleration(t: Toleration) returns (tree: Yaml)
    ensures tree == TolerationTree(t)
  {
    var item := PutHead(t);
    item := PutIfGiven(item, "value", t.value);
    item := PutIfGiven(item, "effect", t.effect);
    if t.seconds.Some? { item := item["tolerationSeconds" := Int(t.seconds.value)]; }
    tree := Dict(item);
  }

  /** `tolerationsYAML`: the two platform tolerations, then the operator's in order. */
  method RenderTolerations(o: AgentOverrides) returns (tree: Yaml)
    ensures tree == List([PlatformToleration(CONTROL_PLANE), PlatformToleration(MASTER)] + TolerationTrees(o.tolerations))
  {
    var items := [PlatformToleration(CONTROL_PLANE), PlatformToleration(MASTER)];
    for i := 0 to |o.tolerations|
      invariant items == [PlatformToleration(CONTROL_PLANE), PlatformToleration(MASTER)] + TolerationTrees(o.tolerations[..i])
    {
      var t := o.tolerations[i];
      var item := RenderToleration(t);
      items := items + [item];
      assert o.tolerations[..i + 1] == o.tolerations[..i] + [t];
      assert TolerationTrees(o.tolerations[..i + 1]) == TolerationTrees(o.tolerations[..i]) + [TolerationTree(t)];
    }
    assert o.tolerations[..|o.tolerations|] == o.tolerations;
    tree := List(items);
  }

  // ---- Affinity ----

  function RequirementTree(r: Requirement): Yaml {
    Dict(map["key" := Text(r.key), "operator" := Text(r.operator)]
         + (if r.values == [] then map[] else map["values" := List(seq(|r.values|, i requires 0 <= i < |r.values| => Text(r.values[i])))]))
  }

  function RequirementTrees(rs: seq<Requirement>): Yaml {
    List(seq(|rs|, i requires 0 <= i < |rs| => RequirementTree(rs[i])))
  }

  function TermTree(t: Term): Yaml {
    Dict((if t.expressions == [] then map[] else map["matchExpressions" := RequirementTrees(t.expressions)])
         + (if t.fields == [] then map[] else map["matchFields" := RequirementTrees(t.fields)]))
  }

  function TermTrees(ts: seq<Term>): Yaml {
    List(seq(|ts|, i requires 0 <= i < |ts| => TermTree(ts[i])))
  }

  function PreferredTree(x: Preferred): Yaml {
    Dict(map["weight" := Int(x.weight), "preference" := TermTree(x.preference)])
  }

  function PreferredTrees(xs: seq<Preferred>): Yaml {
    List(seq(|xs|, i requires 0 <= i < |xs| => PreferredTree(xs[i])))
  }

  const REQUIRED_KEY: string := "requiredDuringSchedulingIgnoredDuringExecution"
  const PREFERRED_KEY: string := "preferredDuringSchedulingIgnoredDuringExecution"

  function NodeAffinityTree(node: NodeAffinity): Yaml {
    Dict((if node.required == [] then map[] else map[REQUIRED_KEY := Dict(map["nodeSelectorTerms" := TermTrees(node.required)])])
         + (if node.preferred == [] then map[] else map[PREFERRED_KEY := PreferredTrees(node.preferred)]))
  }

  /** `affinityYAML`: nothing at all without a node affinity. */
  function AffinityTree(o: AgentOverrides): Option<Yaml> {
    if o.affinity.Some? && o.affinity.value.node.Some?
    then Some(Dict(map["nodeAffinity" := NodeAffinityTree(o.affinity.value.node.value)]))
    else None
  }

  // ---- Proxy variables ----

  /** One rendered variable: its name and the escaped body of its double-quoted value. */
  datatype EnvLine = EnvLine(name: string, body: string)

  function ProxyMap(o: AgentOverrides): map<string, string> {
    match o.proxy
    case None => map[]
    case Some(x) => map["HTTP_PROXY" := x.http, "HTTPS_PROXY" := x.https, "NO_PROXY" := x.no]
  }

  function NonEmpty(values: map<string, string>): map<string, string> {
    map name | name in values && values[name] != "" :: values[name]
  }

  /** The proxy variables in force, by name. */
  function ProxyValues(o: AgentOverrides): map<string, string> {
    NonEmpty(ProxyMap(o))
  }

  method PrintLines(names: seq<string>, values: map<string, string>) returns (lines: seq<EnvLine>)
    requires forall x :: x in names ==> x in values
    ensures |lines| == |names|
    ensures forall i :: 0 <= i < |lines| ==> lines[i] == EnvLine(names[i], Escape(values[names[i]]))
  {
    lines := [];
    for i := 0 to |names|
      invariant |lines| == i
      invariant forall j :: 0 <= j < i ==> lines[j] == EnvLine(names[j], Escape(values[names[j]]))
    {
      lines := lines + [EnvLine(names[i], Escape(values[names[i]]))];
    }
  }

  /** The lines list the variables by name, each once, in sorted order, with their escaped values. */
  ghost predicate ListsInOrder(lines: seq<EnvLine>, values: map<string, string>) {
    && |lines| == |values|
    && (forall i :: 0 <= i < |lines| ==> lines[i].name in values && lines[i].body == Escape(values[lines[i].name]))
    && (forall i, j :: 0 <= i < j < |lines| ==> Leq(lines[i].name, lines[j].name) && lines[i].name != lines[j].name)
  }

  /** `proxyEnvYAML`: collect the set names from the map, sort them, print each. */
  method RenderProxy(o: AgentOverrides) returns (lines: seq<EnvLine>)
    ensures ListsInOrder(lines, ProxyValues(o))
  {
    lines := RenderValues(ProxyMap(o));
  }

  method RenderValues(values: map<string, string>) returns (lines: seq<EnvLine>)
    ensures ListsInOrder(lines, NonEmpty(values))
  {
    var found := CollectNames(values, (value: string) => value != "");
    assert Kept(values, (value: string) => value != "") == NonEmpty(values).Keys;
    SortKeepsDistinct(found, NonEmpty(values).Keys);
    var names := Sort(found);
    forall x | x in names ensures x in values && NonEmpty(values)[x] == values[x] {
      assert x in NonEmpty(values).Keys;
    }
    lines := PrintLines(names, values);
    assert |NonEmpty(values)| == |NonEmpty(values).Keys|;
    forall i | 0 <= i < |lines| ensures lines[i].name in NonEmpty(values) {
      assert names[i] in names;
    }
  }
}
