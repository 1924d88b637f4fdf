/** The image inventory of a release: which images the catalog uses, and by which components. */
module Inventories {
  import opened Sorting
  import opened Catalogs

  datatype Use = Use(image: string, slug: string)

  datatype Image = Image(reference: string, workloads: seq<string>)

  // ---- What the inventory should say ----

  function UsesOf(slug: string, images: seq<string>): seq<Use> {
    seq(|images|, i requires 0 <= i < |images| => Use(images[i], slug))
  }

  /** Every (image, component) pair in catalog order. */
  function Uses(cs: seq<Component>): seq<Use> {
    if cs == [] then [] else Uses(cs[..|cs| - 1]) + UsesOf(cs[|cs| - 1].slug, cs[|cs| - 1].images)
  }

  /** Images in the order of their first use. */
  function References(uses: seq<Use>): seq<string> {
    if uses == [] then []
    else
      var before := References(uses[..|uses| - 1]);
      var image := uses[|uses| - 1].image;
      if image in before then before else before + [image]
  }

  /** The components that use an image, in catalog order. */
  function Workloads(uses: seq<Use>, image: string): seq<string> {
    if uses == [] then []
    else
      var before := Workloads(uses[..|uses| - 1], image);
      var last := uses[|uses| - 1];
      if last.image == image then before + [last.slug] else before
  }

  function Inventory(uses: seq<Use>): seq<Image> {
    var refs := References(uses);
    seq(|refs|, i requires 0 <= i < |refs| => Image(refs[i], Workloads(uses, refs[i])))
  }

  // ---- The loop ----

  /** `images` maps a reference to its place in the inventory. */
  predicate IsIndex(refs: seq<string>, index: map<string, nat>) {
    && (forall x :: x in index ==> index[x] < |refs| && refs[index[x]] == x)
    && (forall i :: 0 <= i < |refs| ==> refs[i] in index && index[refs[i]] == i)
  }

  lemma IndexFinds(refs: seq<string>, index: map<string, nat>, x: string)
    requires IsIndex(refs, index)
    ensures x in index <==> x in refs
  {
  }

  lemma IndexExtends(refs: seq<string>, index: map<string, nat>, x: string)
    requires IsIndex(refs, index) && x !in refs
    ensures IsIndex(refs + [x], index[x := |refs|])
  {
  }

  lemma {:induction false} UnusedHasNoWorkloads(uses: seq<Use>, image: string)
    requires image !in References(uses)
    ensures Workloads(uses, image) == []
  {
    if uses != [] { UnusedHasNoWorkloads(uses[..|uses| - 1], image); }
  }

  lemma UseExtends(uses: seq<Use>, use: Use)
    ensures References(uses + [use]) == if use.image in References(uses) then References(uses) else References(uses) + [use.image]
    ensures forall x :: Workloads(uses + [use], x) == if use.image == x then Workloads(uses, x) + [use.slug] else Workloads(uses, x)
  {
    assert (uses + [use])[..|uses|] == uses;
  }

  lemma {:induction false} ReferencesAreDistinct(uses: seq<Use>)
    ensures Distinct(References(uses))
  {
    if uses != [] { ReferencesAreDistinct(uses[..|uses| - 1]); }
  }

  /** A known image: its entry gets one more workload, all others stay. */
  lemma KnownExtends(uses: seq<Use>, use: Use, at: nat)
    requires at < |References(uses)| && References(uses)[at] == use.image
    ensures
      var before := Inventory(uses);
      Inventory(uses + [use]) == before[at := before[at].(workloads := before[at].workloads + [use.slug])]
  {
    UseExtends(uses, use);
    ReferencesAreDistinct(uses);
  }

  /** A new image is appended. */
  lemma NewExtends(uses: seq<Use>, use: Use)
    requires use.image !in References(uses)
    ensures Inventory(uses + [use]) == Inventory(uses) + [Image(use.image, [use.slug])]
  {
    UseExtends(uses, use);
    UnusedHasNoWorkloads(uses, use.image);
    assert Workloads(uses + [use], use.image) == [use.slug];
  }

  ghost predicate Fetched(hasPlatforms: string -> bool, uses: seq<Use>) {
    forall i :: 0 <= i < |uses| ==> hasPlatforms(uses[i].image)
  }

  lemma {:induction false} ReferencesAreUsed(uses: seq<Use>, x: string)
    requires x in References(uses)
    ensures exists i :: 0 <= i < |uses| && uses[i].image == x
  {
    if x in References(uses[..|uses| - 1]) {
      ReferencesAreUsed(uses[..|uses| - 1], x);
      var i :| 0 <= i < |uses[..|uses| - 1]| && uses[..|uses| - 1][i].image == x;
      assert uses[i].image == x;
    }
  }

  lemma FetchedExtends(hasPlatforms: string -> bool, uses: seq<Use>, use: Use)
    requires Fetched(hasPlatforms, uses)
    ensures use.image in References(uses) ==> hasPlatforms(use.image)
    ensures Fetched(hasPlatforms, uses + [use]) <==> hasPlatforms(use.image)
  {
    if use.image in References(uses) { ReferencesAreUsed(uses, use.image); }
    assert (uses + [use])[|uses|] == use;
  }

  ghost predicate Records(hasPlatforms: string -> bool, uses: seq<Use>, images: seq<Image>, index: map<string, nat>) {
    images == Inventory(uses) && IsIndex(References(uses), index) && Fetched(hasPlatforms, uses)
  }

  /** One image of a component; `hasPlatforms` stands for the registry lookup and its platform check. */
  method AddImage(
    hasPlatforms: string -> bool, slug: string, image: string, ghost uses: seq<Use>, images: seq<Image>,
    index: map<string, nat>) returns (ok: bool, after: seq<Image>, next: map<string, nat>)
    requires Records(hasPlatforms, uses, images, index)
    ensures ok <==> hasPlatforms(image)
    ensures ok ==> Records(hasPlatforms, uses + [Use(image, slug)], after, next)
  {
    ghost var use := Use(image, slug);
    FetchedExtends(hasPlatforms, uses, use);
    IndexFinds(References(uses), index, image);
    UseExtends(uses, use);
    after, next := images, index;
    if image in index {
      KnownExtends(uses, use, index[image]);
      var entry := images[index[image]];
      after := images[index[image] := entry.(workloads := entry.workloads + [slug])];
    } else {
      if !hasPlatforms(image) {
        return false, after, next;
      }
      NewExtends(uses, use);
      IndexExtends(References(uses), index, image);
      next := index[image := |images|];
      after := images + [Image(image, [slug])];
    }
    ok := true;
  }

  method AddImages(
    hasPlatforms: string -> bool, slug: string, list: seq<string>, ghost uses: seq<Use>, images: seq<Image>,
    index: map<string, nat>) returns (ok: bool, after: seq<Image>, next: map<string, nat>)
    requires Records(hasPlatforms, uses, images, index)
    ensures ok <==> Fetched(hasPlatforms, uses + UsesOf(slug, list))
    ensures ok ==> Records(hasPlatforms, uses + UsesOf(slug, list), after, next)
  {
    after, next := images, index;
    assert uses + UsesOf(slug, list[..0]) == uses;
    for k := 0 to |list|
      invariant Records(hasPlatforms, uses + UsesOf(slug, list[..k]), after, next)
    {
      ghost var done := uses + UsesOf(slug, list[..k]);
      assert uses + UsesOf(slug, list[..k + 1]) == done + [Use(list[k], slug)];
      ok, after, next := AddImage(hasPlatforms, slug, list[k], done, after, next);
      if !ok {
        assert (uses + UsesOf(slug, list))[|uses| + k].image == list[k];
        return;
      }
    }
    assert list[..|list|] == list;
    ok := true;
  }

  method BuildInventory(hasPlatforms: string -> bool, cs: seq<Component>) returns (ok: bool, images: seq<Image>)
    ensures ok <==> Fetched(hasPlatforms, Uses(cs))
    ensures ok ==> images == Inventory(Uses(cs))
  {
    images := [];
    var index: map<string, nat> := map[];
    for i := 0 to |cs|
      invariant Records(hasPlatforms, Uses(cs[..i]), images, index)
    {
      assert cs[..i + 1][..i] == cs[..i];
      assert Uses(cs[..i + 1]) == Uses(cs[..i]) + UsesOf(cs[i].slug, cs[i].images);
      ok, images, index := AddImages(hasPlatforms, cs[i].slug, cs[i].images, Uses(cs[..i]), images, index);
      if !ok {
        UsesGrow(cs, i + 1);
        return;
      }
    }
    assert cs[..|cs|] == cs;
    ok := true;
  }

  lemma {:induction false} UsesGrow(cs: seq<Component>, n: nat)
    requires n <= |cs|
    ensures Uses(cs[..n]) <= Uses(cs)
    decreases |cs| - n
  {
    if n < |cs| {
      assert cs[..n + 1][..n] == cs[..n];
      UsesGrow(cs, n + 1);
    } else {
      assert cs[..n] == cs;
    }
  }

  // ---- What holds for accepted catalogs ----

  lemma {:induction false} WorkloadsCountUses(uses: seq<Use>, image: string, slug: string)
    ensures multiset(Workloads(uses, image))[slug] == multiset(uses)[Use(image, slug)]
  {
    if uses != [] {
      WorkloadsCountUses(uses[..|uses| - 1], image, slug);
      assert uses == uses[..|uses| - 1] + [uses[|uses| - 1]];
    }
  }

  lemma {:induction false} UsesOfCount(slug: string, images: seq<string>, image: string, other: string)
    ensures multiset(UsesOf(slug, images))[Use(image, other)] == if slug == other then multiset(images)[image] else 0
  {
    if images != [] {
      var front := images[..|images| - 1];
      UsesOfCount(slug, front, image, other);
      assert UsesOf(slug, images) == UsesOf(slug, front) + [Use(images[|images| - 1], slug)];
      assert images == front + [images[|images| - 1]];
    }
  }

  lemma {:induction false} ForeignSlugHasNoUses(cs: seq<Component>, image: string, slug: string)
    requires forall i :: 0 <= i < |cs| ==> cs[i].slug != slug
    ensures multiset(Uses(cs))[Use(image, slug)] == 0
  {
    if cs != [] {
      ForeignSlugHasNoUses(cs[..|cs| - 1], image, slug);
      UsesOfCount(cs[|cs| - 1].slug, cs[|cs| - 1].images, image, slug);
    }
  }

  lemma {:induction false} UsesCountImages(cs: seq<Component>, i: nat, image: string)
    requires SlugsDiffer(cs) && i < |cs|
    ensures multiset(Uses(cs))[Use(image, cs[i].slug)] == multiset(cs[i].images)[image]
    decreases |cs|
  {
    var n := |cs| - 1;
    UsesOfCount(cs[n].slug, cs[n].images, image, cs[i].slug);
    if i < n {
      UsesCountImages(cs[..n], i, image);
    } else {
      ForeignSlugHasNoUses(cs[..n], image, cs[n].slug);
    }
  }

  /** In an accepted catalog each image lists each component that uses it exactly once, and those that do not, never. */
  lemma EachUseOnce(rules: Rules, catalog: Catalog, i: nat, image: string)
    requires IsValid(rules, catalog) && i < |catalog.components|
    ensures
      var c := catalog.components[i];
      multiset(Workloads(Uses(catalog.components), image))[c.slug] == if image in c.images then 1 else 0
  {
    var cs := catalog.components;
    WorkloadsCountUses(Uses(cs), image, cs[i].slug);
    UsesCountImages(cs, i, image);
    assert IsSound(rules, catalog, cs[i]);
    DistinctCounts(cs[i].images, image);
    assert image in cs[i].images <==> image in multiset(cs[i].images);
  }

  /** No image lists anything but slugs of components. */
  lemma NoOtherWorkloads(catalog: Catalog, image: string, text: string)
    requires forall i :: 0 <= i < |catalog.components| ==> catalog.components[i].slug != text
    ensures text !in Workloads(Uses(catalog.components), image)
  {
    ForeignSlugHasNoUses(catalog.components, image, text);
    WorkloadsCountUses(Uses(catalog.components), image, text);
    assert text in Workloads(Uses(catalog.components), image) <==> text in multiset(Workloads(Uses(catalog.components), image));
  }

  /** The references are the images of the catalog, each once, ordered by first use. */
  lemma {:induction false} ReferencesAreFirstUses(uses: seq<Use>, i: nat)
    requires i < |uses|
    ensures uses[i].image in References(uses) && Distinct(References(uses))
    ensures References(uses[..i]) <= References(uses)
    decreases |uses|
  {
    ReferencesAreDistinct(uses);
    if i < |uses| - 1 {
      ReferencesAreFirstUses(uses[..|uses| - 1], i);
      assert uses[..|uses| - 1][..i] == uses[..i];
    }
  }
}
