/** What `Validate` accepts, said of the overrides themselves: rules for each part, and that the parts decide. */
module OverridesAccepted {
  import opened Prelude
  import opened Text
  import opened Overrides

  // ---- Parts on their own ----

  /** Only the size of the encoding set aside. */
  function Unsized(p: Platform): Platform {
    p.(encodedSize := (_: AgentOverrides) => 0)
  }

  function OnlyToleration(t: Toleration): AgentOverrides {
    AgentOverrides([t], None, None, None)
  }

  function OnlyTerm(t: Term): AgentOverrides {
    AgentOverrides([], Some(Affinity(Some(NodeAffinity([t], [])))), None, None)
  }

  function OnlyRequirement(r: Requirement): AgentOverrides {
    OnlyTerm(Term([r], []))
  }

  function OnlyPreferred(x: Preferred): AgentOverrides {
    AgentOverrides([], Some(Affinity(Some(NodeAffinity([], [x])))), None, None)
  }

  function OnlyResources(r: Resources): AgentOverrides {
    AgentOverrides([], None, Some(r), None)
  }

  function OnlyProxy(x: Proxy): AgentOverrides {
    AgentOverrides([], None, None, Some(x))
  }

  predicate IsShort(s: string, size: nat) {
    Size(s) <= size && forall i :: 0 <= i < |s| ==> s[i] != '\r' && s[i] != '\n' && s[i] != '\0'
  }

  lemma ShortIff(s: string, size: nat)
    ensures IsShort(s, size) <==> Size(s) <= size && !HasAny(s, BREAKS)
  {
  }

  /** A toleration is accepted iff its key is a qualified name other than the platform's, and the rest fits its operator. */
  lemma TolerationAcceptedIff(p: Platform, t: Toleration)
    requires p.encodedSize(OnlyToleration(t)) <= 32768
    ensures Accepts(p, OnlyToleration(t)) <==>
      && t.key != "" && p.qualified(t.key)
      && t.key != "node-role.kubernetes.io/control-plane" && t.key != "node-role.kubernetes.io/master"
      && (t.operator == "" || t.operator == "Equal" || (t.operator == "Exists" && t.value == ""))
      && IsShort(t.value, 253)
      && (t.effect == "" || t.effect == "NoSchedule" || t.effect == "PreferNoSchedule" || t.effect == "NoExecute")
      && (t.seconds.Some? ==> t.effect == "NoExecute" && 0 <= t.seconds.value <= 604800)
  {
    ShortIff(t.value, 253);
    assert OnlyToleration(t).tolerations[0] == t;
  }

  /** Values against operator: 1 to 32 for In and NotIn, none for Exists and DoesNotExist, one number for Gt and Lt. */
  predicate ValuesFit(operator: string, values: seq<string>) {
    || ((operator == "In" || operator == "NotIn") && 1 <= |values| <= 32)
    || ((operator == "Exists" || operator == "DoesNotExist") && |values| == 0)
    || ((operator == "Gt" || operator == "Lt") && |values| == 1 && values[0] != ""
        && forall i :: 0 <= i < |values[0]| ==> '0' <= values[0][i] <= '9')
  }

  lemma RequirementValidIff(p: Platform, r: Requirement)
    ensures ValidRequirement(p, r) <==>
      && r.key != "" && p.qualified(r.key) && ValuesFit(r.operator, r.values)
      && forall i :: 0 <= i < |r.values| ==> IsShort(r.values[i], 63)
  {
    forall i | 0 <= i < |r.values| ensures IsShort(r.values[i], 63) <==> Size(r.values[i]) <= 63 && !HasAny(r.values[i], BREAKS) {
      ShortIff(r.values[i], 63);
    }
  }

  /** A requirement is accepted iff its key is a qualified name, its values fit its operator and each is short. */
  lemma RequirementAcceptedIff(p: Platform, r: Requirement)
    requires p.encodedSize(OnlyRequirement(r)) <= 32768
    ensures Accepts(p, OnlyRequirement(r)) <==>
      && r.key != "" && p.qualified(r.key) && ValuesFit(r.operator, r.values)
      && forall i :: 0 <= i < |r.values| ==> IsShort(r.values[i], 63)
  {
    RequirementValidIff(p, r);
    var term := Term([r], []);
    assert term.expressions + term.fields == [r];
    assert [r][0] == r && [term][0] == term;
    assert ValidTerm(p, term) <==> ValidRequirement(p, r);
  }

  /** A term is accepted iff it has 1 to 64 requirements and each is accepted on its own. */
  lemma TermAcceptedIff(p: Platform, t: Term)
    requires p.encodedSize(OnlyTerm(t)) <= 32768
    ensures Accepts(p, OnlyTerm(t)) <==>
      && 1 <= |t.expressions| + |t.fields| <= 64
      && (forall i :: 0 <= i < |t.expressions| ==> Accepts(Unsized(p), OnlyRequirement(t.expressions[i])))
      && (forall i :: 0 <= i < |t.fields| ==> Accepts(Unsized(p), OnlyRequirement(t.fields[i])))
  {
    assert [t][0] == t;
    TermValidIff(p, t);
  }

  predicate AreValid(p: Platform, rs: seq<Requirement>) {
    forall i :: 0 <= i < |rs| ==> ValidRequirement(p, rs[i])
  }

  lemma ValidTogetherIff(p: Platform, a: seq<Requirement>, b: seq<Requirement>)
    ensures AreValid(p, a + b) <==> AreValid(p, a) && AreValid(p, b)
  {
    var all := a + b;
    if AreValid(p, all) {
      forall i | 0 <= i < |a| ensures ValidRequirement(p, a[i]) { assert all[i] == a[i]; }
      forall i | 0 <= i < |b| ensures ValidRequirement(p, b[i]) { assert all[|a| + i] == b[i]; }
    }
  }

  lemma ValidAloneIff(p: Platform, rs: seq<Requirement>)
    ensures AreValid(p, rs) <==> forall i :: 0 <= i < |rs| ==> Accepts(Unsized(p), OnlyRequirement(rs[i]))
  {
    forall i | 0 <= i < |rs| ensures Accepts(Unsized(p), OnlyRequirement(rs[i])) <==> ValidRequirement(p, rs[i]) {
      SoleRequirement(p, rs[i]);
    }
  }

  lemma TermValidIff(p: Platform, t: Term)
    ensures ValidTerm(p, t) <==>
      && 1 <= |t.expressions| + |t.fields| <= 64
      && (forall i :: 0 <= i < |t.expressions| ==> Accepts(Unsized(p), OnlyRequirement(t.expressions[i])))
      && (forall i :: 0 <= i < |t.fields| ==> Accepts(Unsized(p), OnlyRequirement(t.fields[i])))
  {
    ValidTogetherIff(p, t.expressions, t.fields);
    ValidAloneIff(p, t.expressions);
    ValidAloneIff(p, t.fields);
    assert ValidTerm(p, t) <==> 1 <= |t.expressions + t.fields| <= 64 && AreValid(p, t.expressions + t.fields);
  }

  lemma SoleRequirement(p: Platform, r: Requirement)
    ensures Accepts(Unsized(p), OnlyRequirement(r)) <==> ValidRequirement(p, r)
  {
    RequirementAcceptedIff(Unsized(p), r);
    RequirementValidIff(p, r);
  }

  /** A preference is accepted iff its weight is 1 to 100 and its term is accepted. */
  lemma PreferredAcceptedIff(p: Platform, x: Preferred)
    requires p.encodedSize(OnlyPreferred(x)) <= 32768
    ensures Accepts(p, OnlyPreferred(x)) <==> 1 <= x.weight <= 100 && Accepts(Unsized(p), OnlyTerm(x.preference))
  {
    assert [x][0] == x;
    TermAcceptedIff(Unsized(p), x.preference);
    TermValidIff(p, x.preference);
    SameRequirements(p, x.preference);
  }

  lemma SameRequirements(p: Platform, t: Term)
    ensures ValidTerm(Unsized(p), t) == ValidTerm(p, t)
  {
    forall r: Requirement ensures ValidRequirement(Unsized(p), r) == ValidRequirement(p, r) {
    }
  }

  /** One side of the resources: absent, or a short quantity above zero without space around it. */
  predicate IsQuantity(p: Platform, text: string) {
    text == "" || (Size(text) <= 32 && TrimSpace(text) == text && p.quantity(text).Some? && p.quantity(text).value > 0.0)
  }

  /** Resources are accepted iff each side is a quantity and no given request exceeds its given limit. */
  lemma ResourcesAcceptedIff(p: Platform, r: Resources)
    requires p.encodedSize(OnlyResources(r)) <= 32768
    ensures Accepts(p, OnlyResources(r)) <==>
      && IsQuantity(p, r.requests.cpu) && IsQuantity(p, r.requests.memory)
      && IsQuantity(p, r.limits.cpu) && IsQuantity(p, r.limits.memory)
      && (r.requests.cpu != "" && r.limits.cpu != "" ==> p.quantity(r.requests.cpu).value <= p.quantity(r.limits.cpu).value)
      && (r.requests.memory != "" && r.limits.memory != "" ==>
            p.quantity(r.requests.memory).value <= p.quantity(r.limits.memory).value)
  {
  }

  /** A character of an exempt host, network or suffix. */
  predicate IsExemptChar(c: char) {
    || 'a' <= c <= 'z' || 'A' <= c <= 'Z' || '0' <= c <= '9'
    || c == '.' || c == '*' || c == ':' || c == '_' || c == '/' || c == '-'
  }

  predicate IsProxyUrl(p: Platform, text: string) {
    text == "" || (IsShort(text, 2048) && p.proxyUrl(text))
  }

  /** A proxy is accepted iff its URLs are bare and its exemptions, trimmed, have no other character. */
  lemma ProxyAcceptedIff(p: Platform, x: Proxy)
    requires p.encodedSize(OnlyProxy(x)) <= 32768
    ensures Accepts(p, OnlyProxy(x)) <==>
      && IsProxyUrl(p, x.http) && IsProxyUrl(p, x.https) && IsShort(x.no, 4096)
      && forall i :: 0 <= i < |Split(x.no, ',')| ==>
           forall k :: 0 <= k < |TrimSpace(Split(x.no, ',')[i])| ==> IsExemptChar(TrimSpace(Split(x.no, ',')[i])[k])
  {
    ShortIff(x.http, 2048);
    ShortIff(x.https, 2048);
    ShortIff(x.no, 4096);
    forall c: char ensures NoProxyChar(c) <==> IsExemptChar(c) {
    }
  }

  // ---- The parts decide ----

  ghost predicate AffinityPartsPass(p: Platform, node: NodeAffinity) {
    && |node.required| + |node.preferred| <= 16
    && (forall i :: 0 <= i < |node.required| ==> Accepts(Unsized(p), OnlyTerm(node.required[i])))
    && (forall i :: 0 <= i < |node.preferred| ==> Accepts(Unsized(p), OnlyPreferred(node.preferred[i])))
  }

  lemma AffinityDecided(p: Platform, node: NodeAffinity)
    ensures ValidAffinity(p, Some(Affinity(Some(node)))) <==> AffinityPartsPass(p, node)
  {
    forall i | 0 <= i < |node.required|
      ensures Accepts(Unsized(p), OnlyTerm(node.required[i])) <==> ValidTerm(p, node.required[i])
    {
      SoleTerm(p, node.required[i]);
    }
    forall i | 0 <= i < |node.preferred|
      ensures Accepts(Unsized(p), OnlyPreferred(node.preferred[i])) <==>
        1 <= node.preferred[i].weight <= 100 && ValidTerm(p, node.preferred[i].preference)
    {
      SolePreferred(p, node.preferred[i]);
    }
  }

  lemma SoleTerm(p: Platform, t: Term)
    ensures Accepts(Unsized(p), OnlyTerm(t)) <==> ValidTerm(p, t)
  {
    SameRequirements(p, t);
    assert [t][0] == t;
  }

  lemma SolePreferred(p: Platform, x: Preferred)
    ensures Accepts(Unsized(p), OnlyPreferred(x)) <==> 1 <= x.weight <= 100 && ValidTerm(p, x.preference)
  {
    SameRequirements(p, x.preference);
    assert [x][0] == x;
  }

  lemma SoleToleration(p: Platform, t: Toleration)
    ensures Accepts(Unsized(p), OnlyToleration(t)) <==> ValidToleration(p, t)
  {
    assert [t][0] == t;
  }

  /**
   * Any overrides are accepted iff their encoding fits 32768 bytes, they hold at most 16 tolerations and 16 terms, and
   * every part would be accepted on its own.
   */
  lemma PartsDecide(p: Platform, o: AgentOverrides)
    ensures Accepts(p, o) <==>
      && p.encodedSize(o) <= 32768 && |o.tolerations| <= 16
      && (forall i :: 0 <= i < |o.tolerations| ==> Accepts(Unsized(p), OnlyToleration(o.tolerations[i])))
      && (o.affinity.Some? && o.affinity.value.node.Some? ==> AffinityPartsPass(p, o.affinity.value.node.value))
      && (o.resources.Some? ==> Accepts(Unsized(p), OnlyResources(o.resources.value)))
      && (o.proxy.Some? ==> Accepts(Unsized(p), OnlyProxy(o.proxy.value)))
  {
    forall i | 0 <= i < |o.tolerations|
      ensures Accepts(Unsized(p), OnlyToleration(o.tolerations[i])) <==> ValidToleration(p, o.tolerations[i])
    {
      SoleToleration(p, o.tolerations[i]);
    }
    if o.affinity.Some? && o.affinity.value.node.Some? { AffinityDecided(p, o.affinity.value.node.value); }
  }
}
