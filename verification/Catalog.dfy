/** `Catalog.Validate`: the checks of a built-in bundle catalog, as the loops that make them. */
module Catalogs {
  import opened Prelude
  import opened Text
  import opened Sorting
  import opened SourceUrls
  import ImageRefs

  datatype Kind = HelmHttp | HelmOci | OtherKind

  datatype Source = Source(kind: Kind, url: string, originalUrl: string, chart: string, version: string, digest: string)

  datatype Component = Component(
    slug: string, name: string, source: Source, scope: string, namespace: string, releaseName: string,
    images: seq<string>, minimum: string, maximum: string, capabilities: seq<string>)

  datatype Catalog = Catalog(schemaVersion: int, release: string, components: seq<Component>, distribution: string)

  /** Address parsing, and the patterns for releases and images. */
  datatype Rules = Rules(net: Net, isRelease: string -> bool, isImage: string -> bool)

  // ---- What is checked of one component ----

  predicate IsComplete(rules: Rules, catalog: Catalog, c: Component) {
    && c.slug != "" && c.name != ""
    && (c.source.kind.HelmHttp? || (catalog.distribution != "" && c.source.originalUrl != "" && c.source.kind.HelmOci?))
    && c.source.chart != "" && c.source.version != "" && ImageRefs.IsDigest(c.source.digest)
    && c.scope == "platform" && c.namespace != "" && c.releaseName != "" && c.images != []
    && c.minimum != "" && c.maximum != "" && c.capabilities != []
  }

  predicate IsMirrored(catalog: Catalog, s: Source) {
    catalog.distribution != "" && s.originalUrl != ""
  }

  /** The normaliser that applies to the component's URL. */
  function Normalized(rules: Rules, catalog: Catalog, s: Source): Option<string> {
    if !IsMirrored(catalog, s) then NormalizeSource(rules.net, s.url)
    else if NormalizeSource(rules.net, s.originalUrl).None? then None
    else if s.kind.HelmOci? then NormalizeOci(rules.net, s.url)
    else NormalizeMirror(rules.net, s.url)
  }

  predicate HasCanonicalUrl(rules: Rules, catalog: Catalog, s: Source) {
    Normalized(rules, catalog, s) == Some(s.url)
  }

  const NUL := '\0'

  /** Parts joined by NUL; OCI subjects are told apart by digest too. */
  function ArtifactKey(s: Source): string {
    var parts := Join([s.url, s.chart, s.version], NUL);
    if s.kind.HelmOci? then parts + [NUL] + s.digest else parts
  }

  // ---- What is checked across components ----

  predicate Agree(a: Source, b: Source) {
    ArtifactKey(a) == ArtifactKey(b) ==> a.digest == b.digest
  }

  predicate IsSound(rules: Rules, catalog: Catalog, c: Component) {
    && IsComplete(rules, catalog, c) && HasCanonicalUrl(rules, catalog, c.source)
    && AreImages(rules, c.images) && Distinct(c.images) && Distinct(c.capabilities)
  }

  predicate AreImages(rules: Rules, images: seq<string>) {
    forall i :: 0 <= i < |images| ==> rules.isImage(images[i])
  }

  predicate SlugsDiffer(cs: seq<Component>) {
    forall i, j :: 0 <= i < j < |cs| ==> cs[i].slug != cs[j].slug
  }

  predicate ArtifactsAgree(cs: seq<Component>) {
    forall i, j :: 0 <= i < j < |cs| ==> Agree(cs[i].source, cs[j].source)
  }

  predicate AreSound(rules: Rules, catalog: Catalog, cs: seq<Component>) {
    forall i :: 0 <= i < |cs| ==> IsSound(rules, catalog, cs[i])
  }

  predicate IsValid(rules: Rules, catalog: Catalog) {
    && catalog.schemaVersion == 1 && rules.isRelease(catalog.release) && catalog.components != []
    && AreSound(rules, catalog, catalog.components) && SlugsDiffer(catalog.components)
    && ArtifactsAgree(catalog.components)
  }

  // ---- The loops ----

  /** Images: each matches the pattern and none was seen before. */
  method CheckImages(rules: Rules, images: seq<string>) returns (ok: bool)
    ensures ok <==> AreImages(rules, images) && Distinct(images)
  {
    var seen: set<string> := {};
    for i := 0 to |images|
      invariant AreImages(rules, images[..i]) && Distinct(images[..i])
      invariant forall x :: x in seen <==> x in images[..i]
    {
      if !rules.isImage(images[i]) || images[i] in seen {
        assert images[i] in seen ==> exists k :: 0 <= k < i && images[k] == images[i];
        return false;
      }
      assert images[..i + 1] == images[..i] + [images[i]];
      seen := seen + {images[i]};
    }
    assert images[..|images|] == images;
    return true;
  }

  /** Neighbours of a sorted sequence suffice to see a repetition. */
  lemma NeighboursSuffice(s: seq<string>)
    requires IsSorted(s) && forall i :: 0 < i < |s| ==> s[i] != s[i - 1]
    ensures Distinct(s)
  {
    forall i, j | 0 <= i < j < |s| ensures s[i] != s[j] {
      if s[i] == s[j] {
        assert Leq(s[i], s[j - 1]) by { LeqReflexive(s[i]); }
        LeqAntisymmetric(s[j - 1], s[j]);
      }
    }
  }

  lemma SortKeepsRepetition(s: seq<string>)
    ensures Distinct(Sort(s)) <==> Distinct(s)
  {
    SortSorts(s);
    if Distinct(s) { DistinctPermutes(s, Sort(s)); }
    if Distinct(Sort(s)) { DistinctPermutes(Sort(s), s); }
  }

  /** Capabilities: sort a copy and compare neighbours. */
  method CheckCapabilities(capabilities: seq<string>) returns (ok: bool)
    ensures ok <==> Distinct(capabilities)
  {
    var sorted := Sort(capabilities);
    SortSorts(capabilities);
    SortKeepsRepetition(capabilities);
    var i := 1;
    while i < |sorted|
      invariant 1 <= i && forall k :: 0 < k < i && k < |sorted| ==> sorted[k] != sorted[k - 1]
    {
      if sorted[i] == sorted[i - 1] {
        return false;
      }
      i := i + 1;
    }
    NeighboursSuffice(sorted);
    return true;
  }

  ghost predicate SeenSoFar(cs: seq<Component>, seen: set<string>) {
    forall x :: x in seen <==> exists k :: 0 <= k < |cs| && cs[k].slug == x
  }

  ghost predicate BoundSoFar(cs: seq<Component>, artifacts: map<string, string>) {
    && (forall k :: 0 <= k < |cs| ==> ArtifactKey(cs[k].source) in artifacts)
    && (forall k :: 0 <= k < |cs| ==> artifacts[ArtifactKey(cs[k].source)] == cs[k].source.digest)
    && (forall x :: x in artifacts ==> exists k :: 0 <= k < |cs| && ArtifactKey(cs[k].source) == x)
  }

  lemma SlugsExtend(cs: seq<Component>, c: Component, seen: set<string>)
    requires SlugsDiffer(cs) && SeenSoFar(cs, seen)
    ensures SlugsDiffer(cs + [c]) <==> c.slug !in seen
    ensures SeenSoFar(cs + [c], seen + {c.slug})
  {
    var all := cs + [c];
    if c.slug in seen {
      var k :| 0 <= k < |cs| && cs[k].slug == c.slug;
      assert all[k].slug == all[|cs|].slug;
    }
    forall x | x in seen + {c.slug} ensures exists k :: 0 <= k < |all| && all[k].slug == x {
      if x == c.slug {
        assert all[|cs|].slug == x;
      } else {
        var k :| 0 <= k < |cs| && cs[k].slug == x;
        assert all[k].slug == x;
      }
    }
  }

  predicate Conflicts(artifacts: map<string, string>, s: Source) {
    ArtifactKey(s) in artifacts && artifacts[ArtifactKey(s)] != s.digest
  }

  lemma ArtifactsExtend(cs: seq<Component>, c: Component, artifacts: map<string, string>)
    requires ArtifactsAgree(cs) && BoundSoFar(cs, artifacts)
    ensures ArtifactsAgree(cs + [c]) <==> !Conflicts(artifacts, c.source)
    ensures !Conflicts(artifacts, c.source) ==> BoundSoFar(cs + [c], artifacts[ArtifactKey(c.source) := c.source.digest])
  {
    var all := cs + [c];
    var key := ArtifactKey(c.source);
    if Conflicts(artifacts, c.source) {
      var k :| 0 <= k < |cs| && ArtifactKey(cs[k].source) == key;
      assert !Agree(all[k].source, all[|cs|].source);
    } else {
      BoundExtends(cs, c, artifacts);
    }
  }

  lemma BoundExtends(cs: seq<Component>, c: Component, artifacts: map<string, string>)
    requires BoundSoFar(cs, artifacts) && !Conflicts(artifacts, c.source)
    ensures BoundSoFar(cs + [c], artifacts[ArtifactKey(c.source) := c.source.digest])
  {
    var all := cs + [c];
    var after := artifacts[ArtifactKey(c.source) := c.source.digest];
    forall x | x in after ensures exists k :: 0 <= k < |all| && ArtifactKey(all[k].source) == x {
      if x in artifacts {
        var k :| 0 <= k < |cs| && ArtifactKey(cs[k].source) == x;
        assert ArtifactKey(all[k].source) == x;
      } else {
        assert ArtifactKey(all[|cs|].source) == x;
      }
    }
  }

  lemma PrefixFails(rules: Rules, catalog: Catalog, i: nat)
    requires i < |catalog.components|
    requires !Accepted(rules, catalog, catalog.components[..i + 1])
    ensures !IsValid(rules, catalog)
  {
    var cs := catalog.components[..i + 1];
    assert forall k :: 0 <= k < |cs| ==> cs[k] == catalog.components[k];
  }

  predicate Admits(rules: Rules, catalog: Catalog, c: Component, seen: set<string>, artifacts: map<string, string>) {
    IsSound(rules, catalog, c) && c.slug !in seen && !Conflicts(artifacts, c.source)
  }

  /** One round of the outer loop, against the slugs and artifacts of the components before. */
  method CheckComponent(
    rules: Rules, catalog: Catalog, c: Component, seen: set<string>, artifacts: map<string, string>) returns (ok: bool)
    ensures ok <==> Admits(rules, catalog, c, seen, artifacts)
  {
    if !IsComplete(rules, catalog, c) || !HasCanonicalUrl(rules, catalog, c.source) || Conflicts(artifacts, c.source) {
      return false;
    }
    ok := CheckImages(rules, c.images);
    if !ok || c.slug in seen {
      return false;
    }
    ok := CheckCapabilities(c.capabilities);
  }

  lemma SoundExtends(rules: Rules, catalog: Catalog, cs: seq<Component>, c: Component)
    requires AreSound(rules, catalog, cs)
    ensures AreSound(rules, catalog, cs + [c]) <==> IsSound(rules, catalog, c)
  {
    assert (cs + [c])[|cs|] == c;
  }

  ghost predicate Accepted(rules: Rules, catalog: Catalog, cs: seq<Component>) {
    AreSound(rules, catalog, cs) && SlugsDiffer(cs) && ArtifactsAgree(cs)
  }

  ghost predicate IsLedger(cs: seq<Component>, seen: set<string>, artifacts: map<string, string>) {
    SeenSoFar(cs, seen) && BoundSoFar(cs, artifacts)
  }

  lemma AdmittedExtends(
    rules: Rules, catalog: Catalog, cs: seq<Component>, c: Component, seen: set<string>, artifacts: map<string, string>)
    requires Accepted(rules, catalog, cs) && IsLedger(cs, seen, artifacts)
    ensures Accepted(rules, catalog, cs + [c]) <==> Admits(rules, catalog, c, seen, artifacts)
  {
    SoundExtends(rules, catalog, cs, c);
    SlugsExtend(cs, c, seen);
    ArtifactsExtend(cs, c, artifacts);
  }

  lemma LedgerExtends(
    rules: Rules, catalog: Catalog, cs: seq<Component>, c: Component, seen: set<string>, artifacts: map<string, string>)
    requires Accepted(rules, catalog, cs) && IsLedger(cs, seen, artifacts) && !Conflicts(artifacts, c.source)
    ensures IsLedger(cs + [c], seen + {c.slug}, artifacts[ArtifactKey(c.source) := c.source.digest])
  {
    SlugsExtend(cs, c, seen);
    BoundExtends(cs, c, artifacts);
  }

  lemma PrefixGrows(cs: seq<Component>, i: nat)
    requires i < |cs|
    ensures cs[..i + 1] == cs[..i] + [cs[i]]
  {
  }

  lemma LedgerStartsEmpty(rules: Rules, catalog: Catalog)
    ensures Accepted(rules, catalog, catalog.components[..0]) && IsLedger(catalog.components[..0], {}, map[])
  {
  }

  lemma AllRoundsMeanValid(rules: Rules, catalog: Catalog)
    requires catalog.schemaVersion == 1 && rules.isRelease(catalog.release) && catalog.components != []
    requires Accepted(rules, catalog, catalog.components[..|catalog.components|])
    ensures IsValid(rules, catalog)
  {
    assert catalog.components[..|catalog.components|] == catalog.components;
  }

  method Validate(rules: Rules, catalog: Catalog) returns (ok: bool)
    ensures ok <==> IsValid(rules, catalog)
  {
    if catalog.schemaVersion != 1 || !rules.isRelease(catalog.release) || catalog.components == [] {
      return false;
    }
    var seen: set<string> := {};
    var artifacts: map<string, string> := map[];
    LedgerStartsEmpty(rules, catalog);
    for i := 0 to |catalog.components|
      invariant Accepted(rules, catalog, catalog.components[..i]) && IsLedger(catalog.components[..i], seen, artifacts)
    {
      var c := catalog.components[i];
      PrefixGrows(catalog.components, i);
      AdmittedExtends(rules, catalog, catalog.components[..i], c, seen, artifacts);
      ok := CheckComponent(rules, catalog, c, seen, artifacts);
      if !ok {
        PrefixFails(rules, catalog, i);
        return;
      }
      LedgerExtends(rules, catalog, catalog.components[..i], c, seen, artifacts);
      artifacts := artifacts[ArtifactKey(c.source) := c.source.digest];
      seen := seen + {c.slug};
    }
    AllRoundsMeanValid(rules, catalog);
    return true;
  }
}
