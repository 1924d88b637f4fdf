/** What each field of a catalog must hold, said of a catalog with one component. */
module CatalogFields {
  import opened Prelude
  import opened Sorting
  import opened SourceUrls
  import opened Catalogs
  import ImageRefs

  function Single(catalog: Catalog, c: Component): Catalog {
    catalog.(components := [c])
  }

  /** The rules for a source URL, by kind and by whether the catalog is a mirrored distribution. */
  predicate IsUrlOf(net: Net, distribution: string, s: Source) {
    match s.kind
    case HelmHttp =>
      if distribution == "" || s.originalUrl == "" then NormalizeSource(net, s.url) == Some(s.url)
      else NormalizeSource(net, s.originalUrl).Some? && NormalizeMirror(net, s.url) == Some(s.url)
    case HelmOci =>
      && distribution != "" && s.originalUrl != ""
      && NormalizeSource(net, s.originalUrl).Some? && NormalizeOci(net, s.url) == Some(s.url)
    case OtherKind => false
  }

  /** No field that must be filled is blank, and the scope is the platform. */
  predicate AreFilled(c: Component) {
    && c.slug != "" && c.name != "" && c.source.chart != "" && c.source.version != ""
    && c.namespace != "" && c.releaseName != "" && c.minimum != "" && c.maximum != ""
    && c.images != [] && c.capabilities != [] && c.scope == "platform"
  }

  predicate IsPinned(digest: string) {
    && |digest| == 71 && digest[..7] == "sha256:"
    && forall i :: 7 <= i < |digest| ==> '0' <= digest[i] <= '9' || 'a' <= digest[i] <= 'f'
  }

  predicate NoneRepeats(xs: seq<string>) {
    forall i, j :: 0 <= i < |xs| && 0 <= j < |xs| && i != j ==> xs[i] != xs[j]
  }

  lemma PinnedIff(digest: string)
    ensures IsPinned(digest) <==> ImageRefs.IsDigest(digest)
  {
  }

  lemma NoneRepeatsIff(xs: seq<string>)
    ensures NoneRepeats(xs) <==> Distinct(xs)
  {
  }

  lemma UrlIff(rules: Rules, catalog: Catalog, s: Source)
    requires s.kind.HelmHttp? || (catalog.distribution != "" && s.originalUrl != "" && s.kind.HelmOci?)
    ensures HasCanonicalUrl(rules, catalog, s) <==> IsUrlOf(rules.net, catalog.distribution, s)
  {
  }

  lemma SoundIff(rules: Rules, catalog: Catalog, c: Component)
    ensures IsSound(rules, catalog, c) <==>
      && AreFilled(c) && IsPinned(c.source.digest) && IsUrlOf(rules.net, catalog.distribution, c.source)
      && (forall i :: 0 <= i < |c.images| ==> rules.isImage(c.images[i]))
      && NoneRepeats(c.images) && NoneRepeats(c.capabilities)
  {
    PinnedIff(c.source.digest);
    NoneRepeatsIff(c.images);
    NoneRepeatsIff(c.capabilities);
    if c.source.kind.HelmHttp? || (catalog.distribution != "" && c.source.originalUrl != "" && c.source.kind.HelmOci?) {
      UrlIff(rules, catalog, c.source);
    }
  }

  lemma SingleIsAlone(rules: Rules, catalog: Catalog, c: Component)
    ensures IsSound(rules, Single(catalog, c), c) <==> IsSound(rules, catalog, c)
    ensures AreSound(rules, Single(catalog, c), [c]) <==> IsSound(rules, catalog, c)
    ensures SlugsDiffer([c]) && ArtifactsAgree([c])
  {
    assert [c][0] == c;
  }

  /**
   * A catalog of one component is accepted iff its metadata is right, every field is filled, the digest is pinned, the URL
   * is the canonical one for its kind, and images and capabilities are in order. Each rule alone refuses a catalog.
   */
  lemma SingleAcceptedIff(rules: Rules, catalog: Catalog, c: Component)
    ensures IsValid(rules, Single(catalog, c)) <==>
      && catalog.schemaVersion == 1 && rules.isRelease(catalog.release)
      && AreFilled(c) && IsPinned(c.source.digest) && IsUrlOf(rules.net, catalog.distribution, c.source)
      && (forall i :: 0 <= i < |c.images| ==> rules.isImage(c.images[i]))
      && NoneRepeats(c.images) && NoneRepeats(c.capabilities)
  {
    SoundIff(rules, catalog, c);
    SingleIsAlone(rules, catalog, c);
  }

  /** Whatever else a catalog holds, each of its components must be acceptable alone. */
  lemma AcceptedComponents(rules: Rules, catalog: Catalog, i: nat)
    requires IsValid(rules, catalog) && i < |catalog.components|
    ensures IsValid(rules, Single(catalog, catalog.components[i]))
  {
    assert IsSound(rules, catalog, catalog.components[i]);
    SingleIsAlone(rules, catalog, catalog.components[i]);
  }
}
