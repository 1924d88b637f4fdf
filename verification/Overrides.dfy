/** Per-cluster agent overrides and the `Validate` family. */
module Overrides {
  import opened Prelude
  import opened Text

  datatype Toleration = Toleration(key: string, operator: string, value: string, effect: string, seconds: Option<int>)

  datatype Requirement = Requirement(key: string, operator: string, values: seq<string>)

  datatype Term = Term(expressions: seq<Requirement>, fields: seq<Requirement>)

  datatype Preferred = Preferred(weight: int, preference: Term)

  datatype NodeAffinity = NodeAffinity(required: seq<Term>, preferred: seq<Preferred>)

  datatype Affinity = Affinity(node: Option<NodeAffinity>)

  datatype Values = Values(cpu: string, memory: string)

  datatype Resources = Resources(requests: Values, limits: Values)

  datatype Proxy = Proxy(http: string, https: string, no: string)

  datatype AgentOverrides = AgentOverrides(
    tolerations: seq<Toleration>, affinity: Option<Affinity>, resources: Option<Resources>, proxy: Option<Proxy>)

  /**
   * The library calls: the size of the JSON encoding, Kubernetes qualified names, quantity parsing, and the
   * test that a string parses as a bare http(s) URL.
   */
  datatype Platform = Platform(
    encodedSize: AgentOverrides -> nat,
    qualified: string -> bool,
    quantity: string -> Option<real>,
    proxyUrl: string -> bool)

  const CONTROL_PLANE: string := "node-role.kubernetes.io/control-plane"
  const MASTER: string := "node-role.kubernetes.io/master"

  const BREAKS: set<char> := {'\r', '\n', '\0'}

  predicate ValidToleration(p: Platform, t: Toleration) {
    && t.key != "" && p.qualified(t.key)
    && t.key != CONTROL_PLANE && t.key != MASTER
    && (var operator := if t.operator == "" then "Equal" else t.operator;
        && (operator == "Equal" || operator == "Exists")
        && (operator == "Exists" ==> t.value == ""))
    && Size(t.value) <= 253 && !HasAny(t.value, BREAKS)
    && t.effect in {"", "NoSchedule", "PreferNoSchedule", "NoExecute"}
    && (t.seconds.Some? ==> t.effect == "NoExecute" && 0 <= t.seconds.value <= 604800)
  }

  predicate IsDigits(s: string) {
    s != "" && forall i :: 0 <= i < |s| ==> '0' <= s[i] <= '9'
  }

  predicate ValidRequirement(p: Platform, r: Requirement) {
    && r.key != "" && p.qualified(r.key)
    && (match r.operator
        case "In" => 1 <= |r.values| <= 32
        case "NotIn" => 1 <= |r.values| <= 32
        case "Exists" => |r.values| == 0
        case "DoesNotExist" => |r.values| == 0
        case "Gt" => |r.values| == 1 && IsDigits(r.values[0])
        case "Lt" => |r.values| == 1 && IsDigits(r.values[0])
        case _ => false)
    && forall i :: 0 <= i < |r.values| ==> Size(r.values[i]) <= 63 && !HasAny(r.values[i], BREAKS)
  }

  predicate ValidTerm(p: Platform, t: Term) {
    var requirements := t.expressions + t.fields;
    && 1 <= |requirements| <= 64
    && forall i :: 0 <= i < |requirements| ==> ValidRequirement(p, requirements[i])
  }

  predicate ValidAffinity(p: Platform, a: Option<Affinity>) {
    a.Some? && a.value.node.Some? ==> (
      var node := a.value.node.value;
      && |node.required| + |node.preferred| <= 16
      && (forall i :: 0 <= i < |node.required| ==> ValidTerm(p, node.required[i]))
      && (forall i :: 0 <= i < |node.preferred| ==>
            1 <= node.preferred[i].weight <= 100 && ValidTerm(p, node.preferred[i].preference)))
  }

  /** `positiveQuantity`: absent, or a short trimmed positive quantity. */
  predicate ValidQuantity(p: Platform, value: string) {
    value == "" || (
      && Size(value) <= 32 && TrimSpace(value) == value
      && p.quantity(value).Some? && p.quantity(value).value > 0.0)
  }

  /** A request above its limit is refused, but only where both are given. */
  predicate ValidPair(p: Platform, request: string, limit: string)
    requires ValidQuantity(p, request) && ValidQuantity(p, limit)
  {
    request != "" && limit != "" ==> p.quantity(request).value <= p.quantity(limit).value
  }

  predicate ValidResources(p: Platform, resources: Option<Resources>) {
    resources.Some? ==> (
      var r := resources.value;
      && ValidQuantity(p, r.requests.cpu) && ValidQuantity(p, r.requests.memory)
      && ValidQuantity(p, r.limits.cpu) && ValidQuantity(p, r.limits.memory)
      && ValidPair(p, r.requests.cpu, r.limits.cpu) && ValidPair(p, r.requests.memory, r.limits.memory))
  }

  predicate NoProxyChar(c: char) {
    'A' <= c <= 'Z' || 'a' <= c <= 'z' || '0' <= c <= '9' || c in {'.', '*', ':', '_', '/', '-'}
  }

  predicate ValidNoProxyEntry(part: string) {
    forall i :: 0 <= i < |TrimSpace(part)| ==> NoProxyChar(TrimSpace(part)[i])
  }

  predicate ValidProxyUrl(p: Platform, value: string) {
    value == "" || (Size(value) <= 2048 && !HasAny(value, BREAKS) && p.proxyUrl(value))
  }

  predicate ValidProxy(p: Platform, proxy: Option<Proxy>) {
    proxy.Some? ==> (
      var x := proxy.value;
      && ValidProxyUrl(p, x.http) && ValidProxyUrl(p, x.https)
      && Size(x.no) <= 4096 && !HasAny(x.no, BREAKS)
      && forall i :: 0 <= i < |Split(x.no, ',')| ==> ValidNoProxyEntry(Split(x.no, ',')[i]))
  }

  /** `Validate` returns nil. */
  predicate Accepts(p: Platform, o: AgentOverrides) {
    && p.encodedSize(o) <= 32768
    && |o.tolerations| <= 16
    && (forall i :: 0 <= i < |o.tolerations| ==> ValidToleration(p, o.tolerations[i]))
    && ValidAffinity(p, o.affinity)
    && ValidResources(p, o.resources)
    && ValidProxy(p, o.proxy)
  }
}
