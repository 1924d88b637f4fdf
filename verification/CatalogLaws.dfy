/** What an accepted catalog promises, and exactly which names let unrelated releases collide. */
module CatalogLaws {
  import opened Text
  import opened SourceUrls
  import opened SourceMirrors
  import opened Catalogs

  predicate SameRelease(a: Source, b: Source) {
    a.url == b.url && a.chart == b.chart && a.version == b.version
  }

  /** Among HTTP sources, repository, chart and version determine the archive. */
  predicate ReleasesAreBound(cs: seq<Component>) {
    forall i, j :: 0 <= i < j < |cs| ==> IsBound(cs[i].source, cs[j].source)
  }

  predicate IsBound(a: Source, b: Source) {
    a.kind.HelmHttp? && b.kind.HelmHttp? && SameRelease(a, b) ==> a.digest == b.digest
  }

  /** What a catalog should be accepted for: sound components, differing slugs and bound releases. */
  predicate IsConsistent(rules: Rules, catalog: Catalog) {
    && catalog.schemaVersion == 1 && rules.isRelease(catalog.release) && catalog.components != []
    && AreSound(rules, catalog, catalog.components) && SlugsDiffer(catalog.components)
    && ReleasesAreBound(catalog.components)
  }

  /** The separator may at most start the chart name or end the version. */
  predicate IsUnambiguous(s: Source)
    requires s.chart != "" && s.version != ""
  {
    NUL !in s.chart[1..] && NUL !in s.version[..|s.version| - 1]
  }

  /** What soundness says of a source, as far as its key is concerned. */
  predicate IsSource(s: Source) {
    && !s.kind.OtherKind? && NUL !in s.url && s.chart != "" && s.version != "" && ImageRefs.IsDigest(s.digest)
  }

  // ---- Keys ----

  function Names(s: Source): string {
    s.chart + [NUL] + s.version
  }

  function Tail(s: Source): string {
    if s.kind.HelmOci? then Names(s) + [NUL] + s.digest else Names(s)
  }

  lemma JoinOfThree(x: string, y: string, z: string)
    ensures Join([x, y, z], NUL) == x + [NUL] + (y + [NUL] + z)
  {
    assert [x, y, z][1..] == [y, z] && [y, z][1..] == [z];
    assert Join([y, z], NUL) == y + [NUL] + Join([z], NUL);
  }

  lemma KeyShape(s: Source)
    ensures ArtifactKey(s) == s.url + [NUL] + Tail(s)
  {
    JoinOfThree(s.url, s.chart, s.version);
    assert s.url + [NUL] + Names(s) + [NUL] + s.digest == s.url + [NUL] + (Names(s) + [NUL] + s.digest);
  }

  /** A text with a first separator splits in one way. */
  lemma FirstSeparatorSplits(a: string, x: string, b: string, y: string)
    requires NUL !in a && NUL !in b && a + [NUL] + x == b + [NUL] + y
    ensures a == b && x == y
  {
    IndexIsFirst(a, NUL, x);
    IndexIsFirst(b, NUL, y);
    assert (a + [NUL] + x)[..|a|] == a && (b + [NUL] + y)[..|b|] == b;
    assert (a + [NUL] + x)[|a| + 1..] == x && (b + [NUL] + y)[|b| + 1..] == y;
  }

  lemma KeysShareTails(s: Source, t: Source)
    requires NUL !in s.url && NUL !in t.url
    ensures ArtifactKey(s) == ArtifactKey(t) <==> s.url == t.url && Tail(s) == Tail(t)
  {
    KeyShape(s);
    KeyShape(t);
    if ArtifactKey(s) == ArtifactKey(t) { FirstSeparatorSplits(s.url, Tail(s), t.url, Tail(t)); }
  }

  /** Where else a text `chart NUL version` could be cut: only inside the chart, or inside the version. */
  lemma OtherCuts(chart: string, version: string, x: string, y: string)
    requires chart + [NUL] + version == x + [NUL] + y && x != "" && y != ""
    requires chart != "" && version != "" && NUL !in chart[1..] && NUL !in version[..|version| - 1]
    ensures x == chart && y == version
  {
    var whole := chart + [NUL] + version;
    assert whole[|x|] == NUL && |whole| == |x| + 1 + |y|;
    assert forall k :: 1 <= k < |chart| ==> whole[k] == chart[1..][k - 1];
    assert forall k :: |chart| < k < |whole| - 1 ==> whole[k] == version[..|version| - 1][k - |chart| - 1];
    assert |x| == |chart|;
    assert whole[..|x|] == x && whole[..|x|] == chart;
    assert whole[|x| + 1..] == y && whole[|x| + 1..] == version;
  }

  /** The key of a source with unambiguous names is shared by no other release, and by no OCI subject. */
  lemma UnambiguousKeyNamesRelease(s: Source, t: Source)
    requires IsSource(s) && IsSource(t) && s.kind.HelmHttp? && IsUnambiguous(s) && ArtifactKey(s) == ArtifactKey(t)
    ensures t.kind.HelmHttp? && SameRelease(s, t)
  {
    KeysShareTails(s, t);
    if t.kind.HelmOci? {
      var rest := t.version + [NUL] + t.digest;
      assert Tail(t) == t.chart + [NUL] + rest;
      assert rest[..|rest| - 1][|t.version|] == NUL;
      OtherCuts(s.chart, s.version, t.chart, rest);
    } else {
      OtherCuts(s.chart, s.version, t.chart, t.version);
    }
  }

  lemma EqualEnds(a: string, b: string, c: string, d: string)
    requires a + b == c + d && |b| == |d|
    ensures b == d
  {
    assert (a + b)[|a|..] == b && (c + d)[|c|..] == d;
  }

  /** OCI subjects never conflict, whatever their names hold: their digest ends the key. */
  lemma OciAgrees(s: Source, t: Source)
    requires IsSource(s) && IsSource(t) && s.kind.HelmOci? && t.kind.HelmOci?
    ensures Agree(s, t)
  {
    if ArtifactKey(s) == ArtifactKey(t) {
      KeysShareTails(s, t);
      EqualEnds(Names(s) + [NUL], s.digest, Names(t) + [NUL], t.digest);
    }
  }

  lemma AgreeIffBound(s: Source, t: Source)
    requires IsSource(s) && IsSource(t)
    requires (s.kind.HelmHttp? && IsUnambiguous(s)) || (t.kind.HelmHttp? && IsUnambiguous(t)) || (s.kind.HelmOci? && t.kind.HelmOci?)
    ensures Agree(s, t) <==> IsBound(s, t)
  {
    if s.kind.HelmOci? && t.kind.HelmOci? {
      OciAgrees(s, t);
    } else if ArtifactKey(s) == ArtifactKey(t) {
      if s.kind.HelmHttp? && IsUnambiguous(s) {
        UnambiguousKeyNamesRelease(s, t);
      } else {
        UnambiguousKeyNamesRelease(t, s);
      }
    } else {
      KeysShareTails(s, t);
    }
  }

  // ---- A release that collides ----

  /** Another valid digest. */
  function OtherDigest(digest: string): string
    requires ImageRefs.IsDigest(digest)
  {
    digest[70 := if digest[70] == '0' then '1' else '0']
  }

  lemma OtherDigestIsDigest(digest: string)
    requires ImageRefs.IsDigest(digest)
    ensures ImageRefs.IsDigest(OtherDigest(digest)) && OtherDigest(digest) != digest
  {
    assert OtherDigest(digest)[..7] == digest[..7];
    assert OtherDigest(digest)[70] != digest[70];
  }

  /** For ambiguous names: the same text, cut at another separator. */
  function OtherCut(s: Source): (string, string)
    requires s.chart != "" && s.version != "" && !IsUnambiguous(s)
  {
    if NUL in s.chart[1..] then
      var k := IndexOf(s.chart[1..], NUL) + 1;
      (s.chart[..k], s.chart[k + 1..] + [NUL] + s.version)
    else
      var k := IndexOf(s.version[..|s.version| - 1], NUL);
      (s.chart + [NUL] + s.version[..k], s.version[k + 1..])
  }

  lemma OtherCutCollides(s: Source)
    requires s.chart != "" && s.version != "" && !IsUnambiguous(s)
    ensures OtherCut(s).0 != "" && OtherCut(s).1 != "" && OtherCut(s).0 != s.chart
    ensures OtherCut(s).0 + [NUL] + OtherCut(s).1 == Names(s)
  {
    if NUL in s.chart[1..] {
      var k := IndexOf(s.chart[1..], NUL) + 1;
      assert s.chart[k] == s.chart[1..][k - 1] == NUL;
      assert s.chart == s.chart[..k] + [NUL] + s.chart[k + 1..];
    } else {
      var k := IndexOf(s.version[..|s.version| - 1], NUL);
      assert s.version[k] == s.version[..|s.version| - 1][k] == NUL;
      assert s.version == s.version[..k] + [NUL] + s.version[k + 1..];
    }
  }

  function Rival(s: Source): Source
    requires IsSource(s) && !IsUnambiguous(s)
  {
    s.(chart := OtherCut(s).0, version := OtherCut(s).1, digest := OtherDigest(s.digest))
  }

  lemma RivalCollides(s: Source)
    requires IsSource(s) && s.kind.HelmHttp? && !IsUnambiguous(s)
    ensures IsSource(Rival(s)) && !SameRelease(s, Rival(s)) && ArtifactKey(Rival(s)) == ArtifactKey(s) && Rival(s).digest != s.digest
  {
    OtherCutCollides(s);
    OtherDigestIsDigest(s.digest);
    KeysShareTails(s, Rival(s));
  }

  /**
   * A key names one release, among all HTTP sources and OCI subjects, exactly when the separator stays out of the chart
   * after its first character and out of the version before its last.
   */
  lemma KeyNamesOneReleaseIff(s: Source)
    requires IsSource(s) && s.kind.HelmHttp?
    ensures (forall t :: IsSource(t) && ArtifactKey(t) == ArtifactKey(s) ==> t.kind.HelmHttp? && SameRelease(s, t)) <==>
      IsUnambiguous(s)
  {
    if IsUnambiguous(s) {
      forall t | IsSource(t) && ArtifactKey(t) == ArtifactKey(s) ensures t.kind.HelmHttp? && SameRelease(s, t) {
        UnambiguousKeyNamesRelease(s, t);
      }
    } else {
      RivalCollides(s);
    }
  }

  // ---- Catalogs ----

  lemma CanonicalUrlHoldsNoNul(rules: Rules, catalog: Catalog, s: Source)
    requires HasCanonicalUrl(rules, catalog, s)
    ensures NUL !in s.url
  {
    if !IsMirrored(catalog, s) {
      SourceHoldsNoNul(rules.net, s.url);
    } else if s.kind.HelmOci? {
      MirrorHoldsNoNul(rules.net, Https(s.url[6..], ""));
      OciHoldsNoNul(s.url);
    } else {
      MirrorHoldsNoNul(rules.net, s.url);
    }
  }

  lemma SoundIsSource(rules: Rules, catalog: Catalog, c: Component)
    requires IsSound(rules, catalog, c)
    ensures IsSource(c.source)
  {
    CanonicalUrlHoldsNoNul(rules, catalog, c.source);
  }

  /** Any accepted catalog binds its HTTP releases, whatever its names hold. */
  lemma AcceptedBindsReleases(rules: Rules, catalog: Catalog)
    requires IsValid(rules, catalog)
    ensures ReleasesAreBound(catalog.components)
  {
    var cs := catalog.components;
    forall i, j | 0 <= i < j < |cs| ensures IsBound(cs[i].source, cs[j].source) {
      assert Agree(cs[i].source, cs[j].source);
    }
  }

  /** A component whose key cannot be mistaken: an HTTP source with unambiguous names. OCI needs no condition. */
  ghost predicate IsClear(c: Component) {
    c.source.kind.HelmHttp? ==> c.source.chart != "" && c.source.version != "" && IsUnambiguous(c.source)
  }

  lemma BoundMeansAgree(rules: Rules, catalog: Catalog)
    requires AreSound(rules, catalog, catalog.components) && ReleasesAreBound(catalog.components)
    requires forall i :: 0 <= i < |catalog.components| ==> IsClear(catalog.components[i])
    ensures ArtifactsAgree(catalog.components)
  {
    var cs := catalog.components;
    forall i, j | 0 <= i < j < |cs| ensures Agree(cs[i].source, cs[j].source) {
      assert IsSound(rules, catalog, cs[i]) && IsSound(rules, catalog, cs[j]) && IsClear(cs[i]) && IsClear(cs[j]);
      SoundIsSource(rules, catalog, cs[i]);
      SoundIsSource(rules, catalog, cs[j]);
      assert IsBound(cs[i].source, cs[j].source);
      AgreeIffBound(cs[i].source, cs[j].source);
    }
  }

  /** A catalog of clear components is accepted exactly when it is consistent. */
  lemma AcceptedIff(rules: Rules, catalog: Catalog)
    requires forall i :: 0 <= i < |catalog.components| ==> IsClear(catalog.components[i])
    ensures IsValid(rules, catalog) <==> IsConsistent(rules, catalog)
  {
    if IsValid(rules, catalog) { AcceptedBindsReleases(rules, catalog); }
    if IsConsistent(rules, catalog) { BoundMeansAgree(rules, catalog); }
  }

  /** The same catalog with two components. */
  function Pair(catalog: Catalog, c: Component, d: Component): Catalog {
    catalog.(components := [c, d])
  }

  ghost predicate IsJudgedRight(rules: Rules, catalog: Catalog) {
    IsValid(rules, catalog) <==> IsConsistent(rules, catalog)
  }

  lemma SoundInPair(rules: Rules, catalog: Catalog, c: Component, d: Component, x: Component)
    ensures IsSound(rules, Pair(catalog, c, d), x) <==> IsSound(rules, catalog, x)
  {
  }

  lemma PairIsBound(c: Component, d: Component)
    ensures ReleasesAreBound([c, d]) <==> IsBound(c.source, d.source)
    ensures ArtifactsAgree([c, d]) <==> Agree(c.source, d.source)
    ensures SlugsDiffer([c, d]) <==> c.slug != d.slug
  {
    assert [c, d][0] == c && [c, d][1] == d;
  }

  lemma ClearPairIsJudgedRight(rules: Rules, catalog: Catalog, c: Component, d: Component)
    requires IsSound(rules, catalog, c) && c.source.kind.HelmHttp? && IsClear(c)
    ensures IsJudgedRight(rules, Pair(catalog, c, d))
  {
    PairIsBound(c, d);
    if AreSound(rules, Pair(catalog, c, d), [c, d]) {
      assert IsSound(rules, Pair(catalog, c, d), [c, d][1]);
      SoundInPair(rules, catalog, c, d, d);
      SoundIsSource(rules, catalog, c);
      SoundIsSource(rules, catalog, d);
      AgreeIffBound(c.source, d.source);
    }
  }

  function RivalOf(c: Component): Component
    requires IsSource(c.source) && c.source.kind.HelmHttp? && !IsUnambiguous(c.source)
  {
    c.(slug := c.slug + "-rival", source := Rival(c.source))
  }

  /** A consistent catalog that the code refuses: two sound components, two releases, one key. */
  lemma RivalIsRefused(rules: Rules, catalog: Catalog, c: Component)
    requires catalog.schemaVersion == 1 && rules.isRelease(catalog.release)
    requires IsSound(rules, catalog, c) && IsSource(c.source) && c.source.kind.HelmHttp? && !IsUnambiguous(c.source)
    ensures
      var pair := Pair(catalog, c, RivalOf(c));
      IsConsistent(rules, pair) && !IsValid(rules, pair)
  {
    var d := RivalOf(c);
    RivalCollides(c.source);
    PairIsBound(c, d);
    assert |d.slug| != |c.slug|;
    RivalIsSound(rules, catalog, c);
    SoundInPair(rules, catalog, c, d, c);
    SoundInPair(rules, catalog, c, d, d);
  }

  lemma RivalIsSound(rules: Rules, catalog: Catalog, c: Component)
    requires IsSound(rules, catalog, c) && IsSource(c.source) && c.source.kind.HelmHttp? && !IsUnambiguous(c.source)
    ensures IsSound(rules, catalog, RivalOf(c))
  {
    RivalCollides(c.source);
    assert Normalized(rules, catalog, Rival(c.source)) == Normalized(rules, catalog, c.source);
  }

  /**
   * Exactly which names are safe: a sound HTTP component is judged right beside every other component if and only if
   * its names are unambiguous; otherwise there is a consistent catalog with it that is refused.
   */
  lemma JudgedRightIff(rules: Rules, catalog: Catalog, c: Component)
    requires catalog.schemaVersion == 1 && rules.isRelease(catalog.release)
    requires IsSound(rules, catalog, c) && c.source.kind.HelmHttp?
    ensures (forall d :: IsJudgedRight(rules, Pair(catalog, c, d))) <==> IsClear(c)
  {
    SoundIsSource(rules, catalog, c);
    if IsClear(c) {
      forall d ensures IsJudgedRight(rules, Pair(catalog, c, d)) {
        ClearPairIsJudgedRight(rules, catalog, c, d);
      }
    } else {
      RivalIsRefused(rules, catalog, c);
    }
  }
}
