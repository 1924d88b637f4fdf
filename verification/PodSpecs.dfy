/** `ApplyToPodSpec`: the overrides applied in place to a pod spec. */
module PodSpecs {
  import opened Prelude
  import opened Overrides
  import opened Renderers

  datatype CoreToleration = CoreToleration(key: string, operator: string, value: string, effect: string, seconds: Option<int>)

  datatype CoreRequirement = CoreRequirement(key: string, operator: string, values: seq<string>)

  datatype CoreTerm = CoreTerm(matchExpressions: seq<CoreRequirement>, matchFields: seq<CoreRequirement>)

  datatype CorePreferred = CorePreferred(weight: int, preference: CoreTerm)

  datatype CoreNodeAffinity = CoreNodeAffinity(required: Option<seq<CoreTerm>>, preferred: seq<CorePreferred>)

  datatype CoreAffinity = CoreAffinity(node: CoreNodeAffinity)

  datatype Quantities = Quantities(cpu: real, memory: real)

  datatype CoreResources = CoreResources(requests: Quantities, limits: Quantities)

  /** `source` stands for everything about a variable besides its name and literal value. */
  datatype EnvVar = EnvVar(name: string, value: string, source: string)

  /** `rest` stands for the fields of a container that overrides never touch. */
  datatype ContainerValue = ContainerValue(resources: CoreResources, env: seq<EnvVar>, rest: string)

  const PROXY_NAMES: set<string> := {"HTTP_PROXY", "HTTPS_PROXY", "NO_PROXY"}

  /** The quantity parser knows the defaults. */
  predicate KnowsDefaults(p: Platform) {
    && p.quantity("100m") == Some(0.1) && p.quantity("128Mi") == Some(134217728.0)
    && p.quantity("500m") == Some(0.5) && p.quantity("512Mi") == Some(536870912.0)
  }

  // ---- What is applied ----

  function Parse(p: Platform, v: Values): Quantities
    requires p.quantity(v.cpu).Some? && p.quantity(v.memory).Some?
  {
    Quantities(p.quantity(v.cpu).value, p.quantity(v.memory).value)
  }

  /** `MustParse` cannot panic on accepted overrides. */
  lemma EffectiveParses(p: Platform, o: AgentOverrides)
    requires Accepts(p, o) && KnowsDefaults(p)
    ensures
      var requests := Effective(ResourcesOf(o).requests, REQUEST_DEFAULTS);
      var limits := Effective(ResourcesOf(o).limits, LIMIT_DEFAULTS);
      && p.quantity(requests.cpu).Some? && p.quantity(requests.memory).Some?
      && p.quantity(limits.cpu).Some? && p.quantity(limits.memory).Some?
  {
  }

  function CoreResourcesOf(p: Platform, o: AgentOverrides): CoreResources
    requires Accepts(p, o) && KnowsDefaults(p)
  {
    EffectiveParses(p, o);
    CoreResources(Parse(p, Effective(ResourcesOf(o).requests, REQUEST_DEFAULTS)),
                  Parse(p, Effective(ResourcesOf(o).limits, LIMIT_DEFAULTS)))
  }

  function CoreTolerationOf(t: Toleration): CoreToleration {
    CoreToleration(t.key, OrDefault(t.operator, "Equal"), t.value, t.effect, t.seconds)
  }

  const PLATFORM_TOLERATIONS: seq<CoreToleration> := [
    CoreToleration(CONTROL_PLANE, "Exists", "", "NoSchedule", None),
    CoreToleration(MASTER, "Exists", "", "NoSchedule", None)]

  function CoreTolerations(ts: seq<Toleration>): seq<CoreToleration> {
    seq(|ts|, i requires 0 <= i < |ts| => CoreTolerationOf(ts[i]))
  }

  function CoreTolerationsOf(o: AgentOverrides): seq<CoreToleration> {
    PLATFORM_TOLERATIONS + CoreTolerations(o.tolerations)
  }

  function CoreRequirements(rs: seq<Requirement>): seq<CoreRequirement> {
    seq(|rs|, i requires 0 <= i < |rs| => CoreRequirement(rs[i].key, rs[i].operator, rs[i].values))
  }

  function CoreTermOf(t: Term): CoreTerm {
    CoreTerm(CoreRequirements(t.expressions), CoreRequirements(t.fields))
  }

  function CoreTerms(ts: seq<Term>): seq<CoreTerm> {
    seq(|ts|, i requires 0 <= i < |ts| => CoreTermOf(ts[i]))
  }

  function CorePreferreds(xs: seq<Preferred>): seq<CorePreferred> {
    seq(|xs|, i requires 0 <= i < |xs| => CorePreferred(xs[i].weight, CoreTermOf(xs[i].preference)))
  }

  function CoreNodeAffinityOf(node: NodeAffinity): CoreNodeAffinity {
    CoreNodeAffinity(if node.required == [] then None else Some(CoreTerms(node.required)), CorePreferreds(node.preferred))
  }

  function CoreAffinityOf(o: AgentOverrides): Option<CoreAffinity> {
    if o.affinity.Some? && o.affinity.value.node.Some?
    then Some(CoreAffinity(CoreNodeAffinityOf(o.affinity.value.node.value))) else None
  }

  /** The environment without the proxy variables, order and multiplicity kept. */
  function WithoutProxies(env: seq<EnvVar>): (r: seq<EnvVar>)
    ensures |r| <= |env|
  {
    if env == [] then [] else
      WithoutProxies(env[..|env| - 1]) + (if env[|env| - 1].name in PROXY_NAMES then [] else [env[|env| - 1]])
  }

  function Variable(name: string, value: string): seq<EnvVar> {
    if value == "" then [] else [EnvVar(name, value, "")]
  }

  function ProxyVariables(o: AgentOverrides): seq<EnvVar> {
    match o.proxy
    case None => []
    case Some(x) => Variable("HTTP_PROXY", x.http) + Variable("HTTPS_PROXY", x.https) + Variable("NO_PROXY", x.no)
  }

  function AppliedContainer(p: Platform, o: AgentOverrides, c: ContainerValue): ContainerValue
    requires Accepts(p, o) && KnowsDefaults(p)
  {
    c.(resources := CoreResourcesOf(p, o), env := WithoutProxies(c.env) + ProxyVariables(o))
  }

  /** A pod spec as far as overrides touch it. */
  datatype PodValue = PodValue(containers: seq<ContainerValue>, tolerations: seq<CoreToleration>, affinity: Option<CoreAffinity>)

  function AppliedPod(p: Platform, o: AgentOverrides, pod: PodValue, index: nat): PodValue
    requires Accepts(p, o) && KnowsDefaults(p) && index < |pod.containers|
  {
    PodValue(pod.containers[index := AppliedContainer(p, o, pod.containers[index])], CoreTolerationsOf(o), CoreAffinityOf(o))
  }

  // ---- The mutable pod spec ----

  /** A slice of environment variables: a backing array, the first `used` elements of which are the slice. */
  class Container {
    var resources: CoreResources
    var env: array<EnvVar>
    var used: nat
    var rest: string

    constructor (resources: CoreResources, env: array<EnvVar>, rest: string)
      ensures this.resources == resources && this.env == env && used == env.Length && this.rest == rest
    {
      this.resources, this.env, this.used, this.rest := resources, env, env.Length, rest;
    }

    ghost predicate Valid()
      reads this
    {
      used <= env.Length
    }

    ghost function Value(): ContainerValue
      requires Valid()
      reads this, env
    {
      ContainerValue(resources, env[..used], rest)
    }
  }

  class PodSpec {
    var containers: seq<Container>
    var tolerations: seq<CoreToleration>
    var affinity: Option<CoreAffinity>

    constructor (containers: seq<Container>)
      ensures this.containers == containers && tolerations == [] && affinity == None
    {
      this.containers, this.tolerations, this.affinity := containers, [], None;
    }

    /** Containers are distinct and no two of them share a backing array. */
    ghost predicate Valid()
      reads this, containers
    {
      && (forall i :: 0 <= i < |containers| ==> containers[i].Valid())
      && (forall i, j :: 0 <= i < j < |containers| ==>
            containers[i] != containers[j] && containers[i].env != containers[j].env)
    }

    /** The value of the spec. */
    ghost predicate Shows(pod: PodValue)
      requires Valid()
      reads this, containers, set i | 0 <= i < |containers| :: containers[i].env
    {
      && |pod.containers| == |containers| && pod.tolerations == tolerations && pod.affinity == affinity
      && forall i :: 0 <= i < |containers| ==> containers[i].Value() == pod.containers[i]
    }
  }

  /** `env := container.Env[:0]` and the filtering append: compaction inside the backing array. */
  method CompactEnv(a: array<EnvVar>, n: nat) returns (k: nat)
    requires n <= a.Length
    modifies a
    ensures k <= n && a[..k] == WithoutProxies(old(a[..n]))
  {
    k := 0;
    ghost var was := a[..n];
    for i := 0 to n
      invariant k <= i
      invariant a[..k] == WithoutProxies(was[..i])
      invariant forall j :: i <= j < n ==> a[j] == was[j]
    {
      var v := a[i];
      assert v == was[i] && was[..i + 1][..i] == was[..i];
      if v.name !in PROXY_NAMES {
        a[k] := v;
        k := k + 1;
      }
    }
    assert was[..n] == was;
  }

  /** `append(env, value)`: in place while there is room, in a new array otherwise. */
  method Append(a: array<EnvVar>, k: nat, v: EnvVar) returns (b: array<EnvVar>)
    requires k <= a.Length
    modifies a
    ensures b == a || fresh(b)
    ensures k < b.Length && b[..k + 1] == old(a[..k]) + [v]
  {
    if k < a.Length {
      a[k] := v;
      b := a;
    } else {
      b := new EnvVar[k + 1](i requires 0 <= i <= k reads a => if i < k then a[i] else v);
    }
  }

  method AppendIfSet(a: array<EnvVar>, k: nat, name: string, value: string) returns (b: array<EnvVar>, m: nat)
    requires k <= a.Length
    modifies a
    ensures b == a || fresh(b)
    ensures m <= b.Length && b[..m] == old(a[..k]) + Variable(name, value)
  {
    b, m := a, k;
    if value != "" {
      b := Append(a, k, EnvVar(name, value, ""));
      m := k + 1;
    }
  }

  /** The environment part of `ApplyToPodSpec`. */
  method ApplyEnv(o: AgentOverrides, container: Container)
    requires container.Valid()
    modifies container, container.env
    ensures container.Valid() && (container.env == old(container.env) || fresh(container.env))
    ensures container.env[..container.used] == WithoutProxies(old(container.env[..container.used])) + ProxyVariables(o)
    ensures container.resources == old(container.resources) && container.rest == old(container.rest)
  {
    var k := CompactEnv(container.env, container.used);
    var b := container.env;
    ghost var kept := b[..k];
    if o.proxy.Some? {
      b, k := AppendIfSet(b, k, "HTTP_PROXY", o.proxy.value.http);
      b, k := AppendIfSet(b, k, "HTTPS_PROXY", o.proxy.value.https);
      b, k := AppendIfSet(b, k, "NO_PROXY", o.proxy.value.no);
    }
    assert b[..k] == kept + ProxyVariables(o);
    container.env, container.used := b, k;
  }

  /** The loop that rebuilds the tolerations. */
  method BuildTolerations(o: AgentOverrides) returns (r: seq<CoreToleration>)
    ensures r == CoreTolerationsOf(o)
  {
    r := PLATFORM_TOLERATIONS;
    for i := 0 to |o.tolerations|
      invariant r == CoreTolerationsOf(o)[..2 + i]
    {
      var t := o.tolerations[i];
      var operator := t.operator;
      if operator == "" { operator := "Equal"; }
      r := r + [CoreToleration(t.key, operator, t.value, t.effect, t.seconds)];
      assert CoreTolerationsOf(o)[2 + i] == CoreTolerationOf(t);
    }
  }

  /** On error nothing changes; on success the spec and the one container take their effective values. */
  method ApplyToPodSpec(p: Platform, o: AgentOverrides, spec: PodSpec?, index: int) returns (ok: bool)
    requires KnowsDefaults(p) && (spec != null ==> spec.Valid())
    modifies spec,
      if spec != null && 0 <= index < |spec.containers| then {spec.containers[index], spec.containers[index].env} else {}
    ensures ok <==> spec != null && 0 <= index < |old(spec.containers)| && Accepts(p, o)
    ensures !ok && spec != null ==> unchanged(spec) && spec.Valid()
    ensures !ok && spec != null ==>
      forall i :: 0 <= i < |spec.containers| ==> spec.containers[i].Value() == old(spec.containers[i].Value())
    ensures ok ==> spec.Valid() && spec.containers == old(spec.containers)
    ensures ok ==> spec.tolerations == CoreTolerationsOf(o) && spec.affinity == CoreAffinityOf(o)
    ensures ok ==> forall i :: 0 <= i < |spec.containers| ==>
      spec.containers[i].Value() ==
        if i == index then AppliedContainer(p, o, old(spec.containers[i].Value())) else old(spec.containers[i].Value())
    ensures ok ==> forall pod :: old(spec.Shows(pod)) ==> index < |pod.containers| && spec.Shows(AppliedPod(p, o, pod, index))
  {
    if spec == null || index < 0 || index >= |spec.containers| {
      return false;
    }
    if !Accepts(p, o) {
      return false;
    }
    var container := spec.containers[index];
    container.resources := CoreResourcesOf(p, o);
    spec.tolerations := BuildTolerations(o);
    spec.affinity := CoreAffinityOf(o);
    ApplyEnv(o, container);
    ok := true;
  }
}
