/** The renderers and the in-place mutator give an agent the same effective pod. */
module OverridesAgree {
  import opened Prelude
  import opened Overrides
  import opened Sorting
  import opened YamlText
  import opened Renderers
  import opened PodSpecs

  // ---- Reading a rendered tree the way the API server does ----

  function TextAt(fields: map<string, Yaml>, key: string): string {
    if key in fields && fields[key].Text? then fields[key].text else ""
  }

  function ItemsAt(fields: map<string, Yaml>, key: string): seq<Yaml> {
    if key in fields && fields[key].List? then fields[key].items else []
  }

  function FieldsOf(y: Yaml): map<string, Yaml> {
    if y.Dict? then y.fields else map[]
  }

  function ReadToleration(y: Yaml): CoreToleration {
    var f := FieldsOf(y);
    CoreToleration(TextAt(f, "key"), TextAt(f, "operator"), TextAt(f, "value"), TextAt(f, "effect"),
      if "tolerationSeconds" in f && f["tolerationSeconds"].Int? then Some(f["tolerationSeconds"].number) else None)
  }

  function ReadTolerations(y: Yaml): seq<CoreToleration> {
    if y.List? then seq(|y.items|, i requires 0 <= i < |y.items| => ReadToleration(y.items[i])) else []
  }

  function ReadTexts(ys: seq<Yaml>): seq<string> {
    seq(|ys|, i requires 0 <= i < |ys| => if ys[i].Text? then ys[i].text else "")
  }

  function ReadRequirement(y: Yaml): CoreRequirement {
    var f := FieldsOf(y);
    CoreRequirement(TextAt(f, "key"), TextAt(f, "operator"), ReadTexts(ItemsAt(f, "values")))
  }

  function ReadRequirements(ys: seq<Yaml>): seq<CoreRequirement> {
    seq(|ys|, i requires 0 <= i < |ys| => ReadRequirement(ys[i]))
  }

  function ReadTerm(y: Yaml): CoreTerm {
    var f := FieldsOf(y);
    CoreTerm(ReadRequirements(ItemsAt(f, "matchExpressions")), ReadRequirements(ItemsAt(f, "matchFields")))
  }

  function ReadTerms(ys: seq<Yaml>): seq<CoreTerm> {
    seq(|ys|, i requires 0 <= i < |ys| => ReadTerm(ys[i]))
  }

  function ReadPreferred(y: Yaml): CorePreferred {
    var f := FieldsOf(y);
    CorePreferred(if "weight" in f && f["weight"].Int? then f["weight"].number else 0,
                  if "preference" in f then ReadTerm(f["preference"]) else CoreTerm([], []))
  }

  function ReadPreferreds(ys: seq<Yaml>): seq<CorePreferred> {
    seq(|ys|, i requires 0 <= i < |ys| => ReadPreferred(ys[i]))
  }

  function ReadNodeAffinity(y: Yaml): CoreNodeAffinity {
    var f := FieldsOf(y);
    CoreNodeAffinity(
      if REQUIRED_KEY in f then Some(ReadTerms(ItemsAt(FieldsOf(f[REQUIRED_KEY]), "nodeSelectorTerms"))) else None,
      ReadPreferreds(ItemsAt(f, PREFERRED_KEY)))
  }

  function ReadAffinity(y: Option<Yaml>): Option<CoreAffinity> {
    if y.Some? && "nodeAffinity" in FieldsOf(y.value)
    then Some(CoreAffinity(ReadNodeAffinity(FieldsOf(y.value)["nodeAffinity"]))) else None
  }

  function ReadQuantities(p: Platform, y: Yaml): Option<Quantities> {
    var cpu, memory := p.quantity(TextAt(FieldsOf(y), "cpu")), p.quantity(TextAt(FieldsOf(y), "memory"));
    if cpu.Some? && memory.Some? then Some(Quantities(cpu.value, memory.value)) else None
  }

  function ReadResources(p: Platform, y: Yaml): Option<CoreResources> {
    var f := FieldsOf(y);
    if "requests" !in f || "limits" !in f then None else
      var requests, limits := ReadQuantities(p, f["requests"]), ReadQuantities(p, f["limits"]);
      if requests.Some? && limits.Some? then Some(CoreResources(requests.value, limits.value)) else None
  }

  // ---- Agreement ----

  lemma TolerationAgrees(t: Toleration)
    ensures ReadToleration(TolerationTree(t)) == CoreTolerationOf(t)
  {
  }

  lemma PlatformTolerationAgrees(key: string)
    ensures ReadToleration(PlatformToleration(key)) == CoreToleration(key, "Exists", "", "NoSchedule", None)
  {
  }

  lemma OwnTolerationsAgree(ts: seq<Toleration>)
    ensures ReadTolerations(List(TolerationTrees(ts))) == CoreTolerations(ts)
  {
    forall i | 0 <= i < |ts| ensures ReadToleration(TolerationTree(ts[i])) == CoreTolerations(ts)[i] {
      TolerationAgrees(ts[i]);
    }
  }

  lemma ReadTolerationsSplits(a: Yaml, b: Yaml, rest: seq<Yaml>)
    ensures ReadTolerations(List([a, b] + rest)) == [ReadToleration(a), ReadToleration(b)] + ReadTolerations(List(rest))
  {
  }

  /** The rendered tolerations, read back, are the applied list in the same order. */
  lemma TolerationsAgree(o: AgentOverrides)
    ensures ReadTolerations(List([PlatformToleration(CONTROL_PLANE), PlatformToleration(MASTER)] + TolerationTrees(o.tolerations)))
      == CoreTolerationsOf(o)
  {
    PlatformTolerationAgrees(CONTROL_PLANE);
    PlatformTolerationAgrees(MASTER);
    ReadTolerationsSplits(PlatformToleration(CONTROL_PLANE), PlatformToleration(MASTER), TolerationTrees(o.tolerations));
    OwnTolerationsAgree(o.tolerations);
  }

  lemma RequirementAgrees(r: Requirement)
    ensures ReadRequirement(RequirementTree(r)) == CoreRequirement(r.key, r.operator, r.values)
  {
    var f := FieldsOf(RequirementTree(r));
    assert ReadTexts(ItemsAt(f, "values")) == r.values;
  }

  lemma RequirementsAgree(rs: seq<Requirement>)
    ensures RequirementTrees(rs).List? && ReadRequirements(RequirementTrees(rs).items) == CoreRequirements(rs)
  {
    forall i | 0 <= i < |rs| ensures ReadRequirement(RequirementTree(rs[i])) == CoreRequirements(rs)[i] {
      RequirementAgrees(rs[i]);
    }
  }

  lemma TermAgrees(t: Term)
    ensures ReadTerm(TermTree(t)) == CoreTermOf(t)
  {
    RequirementsAgree(t.expressions);
    RequirementsAgree(t.fields);
    var f := FieldsOf(TermTree(t));
    assert ItemsAt(f, "matchExpressions") == RequirementTrees(t.expressions).items;
    assert ItemsAt(f, "matchFields") == RequirementTrees(t.fields).items;
  }

  lemma TermsAgree(ts: seq<Term>)
    ensures ReadTerms(TermTrees(ts).items) == CoreTerms(ts)
  {
    forall i | 0 <= i < |ts| ensures ReadTerm(TermTree(ts[i])) == CoreTerms(ts)[i] {
      TermAgrees(ts[i]);
    }
  }

  lemma PreferredsAgree(xs: seq<Preferred>)
    ensures ReadPreferreds(PreferredTrees(xs).items) == CorePreferreds(xs)
  {
    forall i | 0 <= i < |xs| ensures ReadPreferred(PreferredTree(xs[i])) == CorePreferreds(xs)[i] {
      TermAgrees(xs[i].preference);
    }
  }

  lemma NodeAffinityAgrees(node: NodeAffinity)
    ensures ReadNodeAffinity(NodeAffinityTree(node)) == CoreNodeAffinityOf(node)
  {
    var f := FieldsOf(NodeAffinityTree(node));
    TermsAgree(node.required);
    PreferredsAgree(node.preferred);
    assert ItemsAt(f, PREFERRED_KEY) == PreferredTrees(node.preferred).items;
    if node.required != [] {
      assert ItemsAt(FieldsOf(f[REQUIRED_KEY]), "nodeSelectorTerms") == TermTrees(node.required).items;
    }
  }

  /** The rendered affinity, read back, is the applied one. */
  lemma AffinityAgrees(o: AgentOverrides)
    ensures ReadAffinity(AffinityTree(o)) == CoreAffinityOf(o)
  {
    if o.affinity.Some? && o.affinity.value.node.Some? {
      NodeAffinityAgrees(o.affinity.value.node.value);
    }
  }

  /** The rendered resources, read back, are the applied ones. */
  lemma ResourcesAgree(p: Platform, o: AgentOverrides)
    requires Accepts(p, o) && KnowsDefaults(p)
    ensures ReadResources(p, ResourcesTree(o)) == Some(CoreResourcesOf(p, o))
  {
    EffectiveParses(p, o);
  }

  // ---- Proxy variables ----

  /** The variables of an environment by name; a later one wins. */
  function ByName(env: seq<EnvVar>): map<string, string> {
    if env == [] then map[] else ByName(env[..|env| - 1])[env[|env| - 1].name := env[|env| - 1].value]
  }

  lemma ThreeByName(n1: string, v1: string, n2: string, v2: string, n3: string, v3: string)
    requires n1 != n2 && n1 != n3 && n2 != n3
    ensures ByName(Variable(n1, v1) + Variable(n2, v2) + Variable(n3, v3)) == NonEmpty(map[n1 := v1, n2 := v2, n3 := v3])
  {
    var a := Variable(n1, v1);
    ByNameOfVariable([], n1, v1);
    assert [] + a == a;
    ByNameOfVariable(a, n2, v2);
    ByNameOfVariable(a + Variable(n2, v2), n3, v3);
  }

  /** The applied proxy variables are the ones in force. */
  lemma AppliedProxyByName(o: AgentOverrides)
    ensures ByName(ProxyVariables(o)) == ProxyValues(o)
  {
    if o.proxy.Some? {
      ThreeByName("HTTP_PROXY", o.proxy.value.http, "HTTPS_PROXY", o.proxy.value.https, "NO_PROXY", o.proxy.value.no);
    }
  }

  lemma ByNameOfVariable(env: seq<EnvVar>, name: string, value: string)
    ensures ByName(env + Variable(name, value)) == if value == "" then ByName(env) else ByName(env)[name := value]
  {
    if value == "" {
      assert env + Variable(name, value) == env;
    } else {
      var longer := env + Variable(name, value);
      assert longer[..|longer| - 1] == env;
    }
  }

  /** The value a rendered variable reads back as, if its scalar can be read. */
  function ReadLine(line: EnvLine): Scalar {
    ReadScalar(line.body + "\"")
  }

  /**
   * Every rendered proxy variable reads back as the applied value of that name exactly when that value has no
   * control character.
   */
  lemma ProxyAgrees(o: AgentOverrides, lines: seq<EnvLine>, i: nat)
    requires ListsInOrder(lines, ProxyValues(o)) && i < |lines|
    ensures lines[i].name in ByName(ProxyVariables(o))
    ensures
      var applied := ByName(ProxyVariables(o))[lines[i].name];
      ReadLine(lines[i]) == Scalar(applied, "") <==> AllPrintable(applied)
  {
    AppliedProxyByName(o);
    var value := ProxyValues(o)[lines[i].name];
    EscapedValueReadsBack(value, "");
    assert Escape(value) + "\"" + "" == lines[i].body + "\"";
  }

  /** The rendered lines name exactly the applied proxy variables. */
  lemma ProxyNamesAgree(o: AgentOverrides, lines: seq<EnvLine>, name: string)
    requires ListsInOrder(lines, ProxyValues(o))
    ensures name in ByName(ProxyVariables(o)) <==> exists i :: 0 <= i < |lines| && lines[i].name == name
  {
    AppliedProxyByName(o);
    var values := ProxyValues(o);
    var names := seq(|lines|, i requires 0 <= i < |lines| => lines[i].name);
    var found := set i | 0 <= i < |names| :: names[i];
    assert forall x :: x in names <==> x in found;
    DistinctCoversSet(names, found);
    assert found <= values.Keys;
    if name in values && name !in found {
      SubsetIsSmaller(found, values.Keys, name);
    }
  }

  lemma SubsetIsSmaller(a: set<string>, b: set<string>, x: string)
    requires a <= b && x in b && x !in a
    ensures |a| < |b|
  {
    assert a <= b - {x};
    SubsetIsNotLarger(a, b - {x});
  }
}
