/** Laws of the effective pod: applying twice, applying in sequence, platform tolerations, requests and limits. */
module OverridesLaws {
  import opened Prelude
  import opened Overrides
  import opened Renderers
  import opened PodSpecs
  import opened Text
  import opened YamlText
  import opened OverridesAgree

  // ---- The environment ----

  lemma {:induction false} WithoutProxiesDistributes(a: seq<EnvVar>, b: seq<EnvVar>)
    ensures WithoutProxies(a + b) == WithoutProxies(a) + WithoutProxies(b)
    decreases |b|
  {
    if b == [] {
      assert a + b == a;
    } else {
      var whole := a + b;
      assert whole[..|whole| - 1] == a + b[..|b| - 1];
      WithoutProxiesDistributes(a, b[..|b| - 1]);
    }
  }

  lemma {:induction false} WithoutProxiesOfForeign(env: seq<EnvVar>)
    requires forall i :: 0 <= i < |env| ==> env[i].name !in PROXY_NAMES
    ensures WithoutProxies(env) == env
  {
    if env != [] {
      WithoutProxiesOfForeign(env[..|env| - 1]);
      assert env == env[..|env| - 1] + [env[|env| - 1]];
    }
  }

  lemma {:induction false} WithoutProxiesIsForeign(env: seq<EnvVar>)
    ensures forall i :: 0 <= i < |WithoutProxies(env)| ==> WithoutProxies(env)[i].name !in PROXY_NAMES
  {
    if env != [] { WithoutProxiesIsForeign(env[..|env| - 1]); }
  }

  lemma {:induction false} WithoutProxiesOfProxies(env: seq<EnvVar>)
    requires forall i :: 0 <= i < |env| ==> env[i].name in PROXY_NAMES
    ensures WithoutProxies(env) == []
  {
    if env != [] { WithoutProxiesOfProxies(env[..|env| - 1]); }
  }

  lemma {:induction false} FilteredStay(env: seq<EnvVar>, v: EnvVar)
    ensures multiset(WithoutProxies(env))[v] == if v.name in PROXY_NAMES then 0 else multiset(env)[v]
  {
    if env != [] {
      FilteredStay(env[..|env| - 1], v);
      assert env == env[..|env| - 1] + [env[|env| - 1]];
    }
  }

  /** Every variable but the three proxy variables stays, as often as before. */
  lemma ForeignVariablesStay(env: seq<EnvVar>, v: EnvVar)
    ensures multiset(WithoutProxies(env))[v] ==
      if v.name == "HTTP_PROXY" || v.name == "HTTPS_PROXY" || v.name == "NO_PROXY" then 0 else multiset(env)[v]
  {
    FilteredStay(env, v);
  }

  lemma ProxyVariablesAreProxies(o: AgentOverrides)
    ensures forall i :: 0 <= i < |ProxyVariables(o)| ==> ProxyVariables(o)[i].name in PROXY_NAMES
  {
    assert "HTTP_PROXY" in PROXY_NAMES && "HTTPS_PROXY" in PROXY_NAMES && "NO_PROXY" in PROXY_NAMES;
  }

  /** Applying overrides leaves the other variables in place, in order, with their multiplicity. */
  lemma AppliedKeepsForeignVariables(p: Platform, o: AgentOverrides, c: ContainerValue)
    requires Accepts(p, o) && KnowsDefaults(p)
    ensures WithoutProxies(AppliedContainer(p, o, c).env) == WithoutProxies(c.env)
  {
    var kept := WithoutProxies(c.env);
    WithoutProxiesIsForeign(c.env);
    WithoutProxiesOfForeign(kept);
    ProxyVariablesAreProxies(o);
    WithoutProxiesOfProxies(ProxyVariables(o));
    WithoutProxiesDistributes(kept, ProxyVariables(o));
  }

  /** The last overrides win: whatever was applied before leaves no trace. Idempotence is the case of equal ones. */
  lemma LastWriterWins(p: Platform, first: AgentOverrides, last: AgentOverrides, c: ContainerValue)
    requires Accepts(p, first) && Accepts(p, last) && KnowsDefaults(p)
    ensures AppliedContainer(p, last, AppliedContainer(p, first, c)) == AppliedContainer(p, last, c)
  {
    AppliedKeepsForeignVariables(p, first, c);
  }

  // ---- The whole pod ----

  /** Whatever was applied to a container of the pod before, the last overrides win throughout the pod. */
  lemma LastPodWins(p: Platform, first: AgentOverrides, last: AgentOverrides, pod: PodValue, index: nat)
    requires Accepts(p, first) && Accepts(p, last) && KnowsDefaults(p) && index < |pod.containers|
    ensures AppliedPod(p, last, AppliedPod(p, first, pod, index), index) == AppliedPod(p, last, pod, index)
  {
    LastWriterWins(p, first, last, pod.containers[index]);
  }

  function ApplyAll(p: Platform, os: seq<AgentOverrides>, pod: PodValue, index: nat): (r: PodValue)
    requires KnowsDefaults(p) && index < |pod.containers| && forall i :: 0 <= i < |os| ==> Accepts(p, os[i])
    ensures |r.containers| == |pod.containers|
  {
    if os == [] then pod else AppliedPod(p, os[|os| - 1], ApplyAll(p, os[..|os| - 1], pod, index), index)
  }

  /** After any sequence of accepted overrides only the last one is in force. */
  lemma {:induction false} SequenceEndsInLast(p: Platform, os: seq<AgentOverrides>, pod: PodValue, index: nat)
    requires KnowsDefaults(p) && index < |pod.containers| && os != [] && forall i :: 0 <= i < |os| ==> Accepts(p, os[i])
    ensures ApplyAll(p, os, pod, index) == AppliedPod(p, os[|os| - 1], pod, index)
    decreases |os|
  {
    if |os| > 1 {
      SequenceEndsInLast(p, os[..|os| - 1], pod, index);
      LastPodWins(p, os[|os| - 2], os[|os| - 1], pod, index);
    } else {
      assert ApplyAll(p, os[..0], pod, index) == pod;
    }
  }

  // ---- Platform tolerations ----

  /** The two platform keys stand at the front, and no accepted override repeats either. */
  lemma PlatformTolerationsOnce(p: Platform, o: AgentOverrides, i: nat)
    requires Accepts(p, o) && i < |CoreTolerationsOf(o)|
    ensures CoreTolerationsOf(o)[..2] == PLATFORM_TOLERATIONS
    ensures CoreTolerationsOf(o)[i].key == CONTROL_PLANE <==> i == 0
    ensures CoreTolerationsOf(o)[i].key == MASTER <==> i == 1
  {
    var r := CoreTolerationsOf(o);
    assert r[..2] == PLATFORM_TOLERATIONS;
    assert CONTROL_PLANE != MASTER by { assert |CONTROL_PLANE| != |MASTER|; }
    if i >= 2 {
      assert r[i] == CoreTolerationOf(o.tolerations[i - 2]);
      assert ValidToleration(p, o.tolerations[i - 2]);
    } else if i == 0 {
      assert r[0] == r[..2][0];
    } else {
      assert r[1] == r[..2][1];
    }
  }

  /** The platform tolerations in full, and each of the operator's, with Equal where no operator is given. */
  lemma AppliedTolerations(o: AgentOverrides)
    ensures |CoreTolerationsOf(o)| == |o.tolerations| + 2
    ensures CoreTolerationsOf(o)[0] ==
      CoreToleration("node-role.kubernetes.io/control-plane", "Exists", "", "NoSchedule", None)
    ensures CoreTolerationsOf(o)[1] == CoreToleration("node-role.kubernetes.io/master", "Exists", "", "NoSchedule", None)
    ensures forall i :: 0 <= i < |o.tolerations| ==>
      var t := o.tolerations[i];
      CoreTolerationsOf(o)[i + 2] ==
        CoreToleration(t.key, if t.operator == "" then "Equal" else t.operator, t.value, t.effect, t.seconds)
  {
    var r := CoreTolerationsOf(o);
    assert r[..2] == PLATFORM_TOLERATIONS && r[0] == r[..2][0] && r[1] == r[..2][1];
  }

  // ---- Quantities in force ----

  /** What is given for one quantity, or else its default. */
  function Quantity(p: Platform, given: Option<string>, default: real): real
    requires given.Some? && given.value != "" ==> p.quantity(given.value).Some?
  {
    if given.Some? && given.value != "" then p.quantity(given.value).value else default
  }

  /** The four quantities of the pod: 100m and 128Mi are requested, 500m and 512Mi the limits, unless given otherwise. */
  lemma AppliedQuantities(p: Platform, o: AgentOverrides)
    requires Accepts(p, o) && KnowsDefaults(p)
    ensures o.resources.None? ==>
      CoreResourcesOf(p, o) == CoreResources(Quantities(0.1, 134217728.0), Quantities(0.5, 536870912.0))
    ensures o.resources.Some? ==>
      var r := o.resources.value;
      CoreResourcesOf(p, o) == CoreResources(
        Quantities(Quantity(p, Some(r.requests.cpu), 0.1), Quantity(p, Some(r.requests.memory), 134217728.0)),
        Quantities(Quantity(p, Some(r.limits.cpu), 0.5), Quantity(p, Some(r.limits.memory), 536870912.0)))
  {
    EffectiveParses(p, o);
  }

  // ---- Requests against limits ----

  /** The quantity in force on one side. */
  function InForce(p: Platform, given: string, default: real): real
    requires ValidQuantity(p, given)
  {
    if given == "" then default else p.quantity(given).value
  }

  /** When a pair that validation accepts is safe: nothing is known once one side comes from the defaults. */
  predicate PairIsSafe(p: Platform, request: string, limit: string, defaultRequest: real, defaultLimit: real)
    requires ValidQuantity(p, request) && ValidQuantity(p, limit)
  {
    if request != "" && limit == "" then p.quantity(request).value <= defaultLimit
    else if request == "" && limit != "" then defaultRequest <= p.quantity(limit).value
    else true
  }

  lemma PairInForce(p: Platform, request: string, limit: string, defaultRequest: real, defaultLimit: real)
    requires ValidQuantity(p, request) && ValidQuantity(p, limit) && ValidPair(p, request, limit)
    requires defaultRequest <= defaultLimit
    ensures InForce(p, request, defaultRequest) <= InForce(p, limit, defaultLimit) <==>
      PairIsSafe(p, request, limit, defaultRequest, defaultLimit)
  {
  }

  /**
   * For accepted overrides the pod's requests stay within its limits exactly when, wherever only one side is
   * given, it fits the other side's default. Validation does not check that.
   */
  lemma RequestsWithinLimitsIff(p: Platform, o: AgentOverrides)
    requires Accepts(p, o) && KnowsDefaults(p)
    ensures
      var r := ResourcesOf(o);
      var pod := CoreResourcesOf(p, o);
      && (pod.requests.cpu <= pod.limits.cpu <==> PairIsSafe(p, r.requests.cpu, r.limits.cpu, 0.1, 0.5))
      && (pod.requests.memory <= pod.limits.memory <==>
            PairIsSafe(p, r.requests.memory, r.limits.memory, 134217728.0, 536870912.0))
  {
    var r := ResourcesOf(o);
    EffectiveParses(p, o);
    PairInForce(p, r.requests.cpu, r.limits.cpu, 0.1, 0.5);
    PairInForce(p, r.requests.memory, r.limits.memory, 134217728.0, 536870912.0);
  }

  /** A lone CPU request above the default limit passes validation and yields a request above the limit. */
  lemma LoneRequestCanExceedLimit(p: Platform, cpu: string)
    requires KnowsDefaults(p) && cpu != "" && ValidQuantity(p, cpu) && p.quantity(cpu).value > 0.5
    requires p.encodedSize(LoneRequest(cpu)) <= 32768
    ensures Accepts(p, LoneRequest(cpu))
    ensures CoreResourcesOf(p, LoneRequest(cpu)).requests.cpu > CoreResourcesOf(p, LoneRequest(cpu)).limits.cpu
  {
    RequestsWithinLimitsIff(p, LoneRequest(cpu));
  }

  function LoneRequest(cpu: string): AgentOverrides {
    AgentOverrides([], None, Some(Resources(Values(cpu, ""), Values("", ""))), None)
  }

  // ---- Proxy variables in force ----

  /** The three variables, each under its own name and only where it is set, and no other. */
  lemma AppliedProxy(o: AgentOverrides, name: string)
    ensures o.proxy.None? ==> ByName(ProxyVariables(o)) == map[]
    ensures o.proxy.Some? ==>
      var x := o.proxy.value;
      var value := if name == "HTTP_PROXY" then x.http else if name == "HTTPS_PROXY" then x.https
                   else if name == "NO_PROXY" then x.no else "";
      if value == "" then name !in ByName(ProxyVariables(o))
      else name in ByName(ProxyVariables(o)) && ByName(ProxyVariables(o))[name] == value
  {
    AppliedProxyByName(o);
  }

  // ---- Control characters in no_proxy ----

  const VERTICAL_TAB := '\U{000B}'

  lemma TrailingTabIsTrimmed(host: string)
    requires host != "" && forall i :: 0 <= i < |host| ==> NoProxyChar(host[i])
    ensures TrimSpace(host + [VERTICAL_TAB]) == host
  {
    var text := host + [VERTICAL_TAB];
    assert TrimLeft(text) == text by { assert text[0] == host[0]; }
    assert text[..|text| - 1] == host && IsSpace(text[|text| - 1]);
    assert TrimRight(text) == TrimRight(host);
  }

  lemma TrailingTabPasses(p: Platform, host: string)
    requires host != "" && |host| < 4096 && forall i :: 0 <= i < |host| ==> NoProxyChar(host[i])
    ensures ValidProxy(p, Some(Proxy("", "", host + [VERTICAL_TAB])))
    ensures !AllPrintable(host + [VERTICAL_TAB])
  {
    var no := host + [VERTICAL_TAB];
    TrailingTabIsTrimmed(host);
    SplitOfPlain(no, ',');
    SizeBounds(no);
    assert no[|host|] == VERTICAL_TAB;
  }

  function LoneNoProxy(no: string): AgentOverrides {
    AgentOverrides([], None, None, Some(Proxy("", "", no)))
  }

  lemma LoneNoProxyVariables(no: string)
    requires no != ""
    ensures ByName(ProxyVariables(LoneNoProxy(no))) == map["NO_PROXY" := no]
  {
    assert ProxyVariables(LoneNoProxy(no)) == [EnvVar("NO_PROXY", no, "")];
    assert [EnvVar("NO_PROXY", no, "")][..0] == [];
  }

  /**
   * Entries are trimmed before they are checked: any valid entry followed by a vertical tab is accepted, applied as it
   * is, and rendered to a line that does not read back as the applied value.
   */
  lemma ControlCharacterPasses(p: Platform, host: string, lines: seq<EnvLine>, i: nat)
    requires host != "" && |host| < 4096 && forall k :: 0 <= k < |host| ==> NoProxyChar(host[k])
    requires p.encodedSize(LoneNoProxy(host + [VERTICAL_TAB])) <= 32768
    requires ListsInOrder(lines, ProxyValues(LoneNoProxy(host + [VERTICAL_TAB]))) && i < |lines|
    ensures Accepts(p, LoneNoProxy(host + [VERTICAL_TAB]))
    ensures ByName(ProxyVariables(LoneNoProxy(host + [VERTICAL_TAB]))) == map["NO_PROXY" := host + [VERTICAL_TAB]]
    ensures lines[i].name == "NO_PROXY" && ReadLine(lines[i]) != Scalar(host + [VERTICAL_TAB], "")
  {
    var no := host + [VERTICAL_TAB];
    TrailingTabPasses(p, host);
    LoneNoProxyVariables(no);
    ProxyAgrees(LoneNoProxy(no), lines, i);
  }
}
