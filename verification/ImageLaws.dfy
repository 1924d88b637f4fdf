/** Parsing and printing image references undo each other, and when the repository cutters agree with the parser. */
module ImageLaws {
  import opened Prelude
  import opened Text
  import opened ImageRefs

  // ---- Characters of accepted parts ----

  predicate IsPlainRef(s: string) {
    IsVisible(s) && '@' !in s
  }

  lemma NameIsPlain(s: string)
    requires AreNameChars(s)
    ensures IsPlainRef(s) && ':' !in s && '/' !in s
  {
  }

  lemma PlainJoins(a: string, b: string)
    requires IsPlainRef(a) && IsPlainRef(b)
    ensures IsPlainRef(a + b)
  {
  }

  lemma FirstSegmentIsPlain(s: string)
    requires IsFirstSegment(s)
    ensures IsPlainRef(s)
  {
    if ':' in s {
      var i := IndexOf(s, ':');
      var host, port := s[..i], s[i + 1..];
      NameIsPlain(host);
      assert s == host + ":" + port;
      PlainJoins(host, ":");
      PlainJoins(host + ":", port);
    } else {
      NameIsPlain(s);
    }
  }

  lemma RepositoryIsPlain(s: string)
    requires IsRepository(s)
    ensures IsPlainRef(s)
  {
    var segments := Split(s, '/');
    forall i | 0 <= i < |s| ensures 0x20 < s[i] as int <= 0x7e && s[i] != '@' {
      if s[i] != '/' {
        SplitCovers(s, '/', i);
        var j :| 0 <= j < |segments| && s[i] in segments[j];
        if j == 0 { FirstSegmentIsPlain(segments[0]); } else { NameIsPlain(segments[j]); }
      }
    }
  }

  lemma DigestIsVisible(s: string)
    requires IsDigest(s)
    ensures IsVisible(s)
  {
    assert forall i :: 0 <= i < 7 ==> s[i] == s[..7][i] && s[i] == "sha256:"[i];
    assert IsVisible("sha256:");
  }

  lemma VisibleIsTrimmed(s: string)
    requires IsVisible(s)
    ensures TrimSpace(s) == s && Size(s) == |s|
  {
    SizeBounds(s);
    TrimmedStays(s);
  }

  // ---- Parse after print ----

  lemma NameIsReadBack(r: Reference)
    requires IsReference(r)
    ensures ParseName(NameText(r), r.digest) == Some(r)
    ensures IsPlainRef(NameText(r))
  {
    RepositoryIsPlain(r.repository);
    if r.tag != "" {
      NameIsPlain(r.tag);
      TagIsCut(r.repository, r.tag);
      PlainJoins(r.repository, ":");
      PlainJoins(r.repository + ":", r.tag);
    }
  }

  lemma PrintIsVisible(r: Reference)
    requires IsReference(r) && IsPlainRef(NameText(r))
    ensures IsVisible(Print(r))
  {
    if r.digest != "" { DigestIsVisible(r.digest); }
  }

  lemma {:induction false} ParseUndoesPrint(r: Reference)
    requires IsReference(r)
    ensures ParseReference(Print(r)) == Some(r)
  {
    NameIsReadBack(r);
    PrintIsVisible(r);
    VisibleIsTrimmed(Print(r));
    if r.digest != "" {
      BeforeDigestCuts(NameText(r), r.digest);
      assert '@' in Print(r) by { assert Print(r)[|NameText(r)|] == '@'; }
      assert Print(r)[|NameText(r)| + 1..] == r.digest;
    }
    assert Print(r) != "" by { assert |Print(r)| >= |r.repository|; }
  }

  // ---- Print after parse ----

  lemma NameIsPrinted(s: string, digest: string)
    requires ParseName(s, digest).Some?
    ensures NameText(ParseName(s, digest).value) == s && ParseName(s, digest).value.digest == digest
  {
    if IsTagged(s) { TaggedIsCut(s); }
  }

  lemma DigestIsPrinted(s: string)
    requires '@' in s
    ensures s == BeforeDigest(s) + "@" + s[IndexOf(s, '@') + 1..]
  {
  }

  /** An accepted text is, up to surrounding space, the printed form of its reference. */
  lemma PrintUndoesParse(raw: string)
    requires ParseReference(raw).Some?
    ensures Print(ParseReference(raw).value) == TrimSpace(raw)
    ensures IsReference(ParseReference(raw).value)
  {
    var s := TrimSpace(raw);
    var r := ParseReference(raw).value;
    NameIsPrinted(BeforeDigest(s), r.digest);
    if '@' in s {
      DigestIsPrinted(s);
      assert r.digest != "";
    }
    SizeBounds(s);
    if r.tag == "" { UntaggedStays(BeforeDigest(s), r.digest); }
  }

  lemma UntaggedStays(s: string, digest: string)
    requires ParseName(s, digest).Some? && ParseName(s, digest).value.tag == ""
    ensures !IsTagged(ParseName(s, digest).value.repository)
  {
  }

  /** The parser accepts exactly the printed references, surrounded by space. */
  lemma AcceptedIff(raw: string)
    ensures ParseReference(raw).Some? <==> exists r :: IsReference(r) && TrimSpace(raw) == Print(r)
  {
    if ParseReference(raw).Some? {
      PrintUndoesParse(raw);
    }
    if r :| IsReference(r) && TrimSpace(raw) == Print(r) {
      ParseUndoesPrint(r);
      TrimSpaceTrims(raw);
      TrimmedStays(TrimSpace(raw));
      assert TrimSpace(Print(r)) == TrimSpace(raw);
    }
  }

  // ---- The cutters ----

  /** `imageRepositoryOf` of the manifest renderer. */
  function RendererRepository(image: string): string {
    StripTag(BeforeDigest(TrimSpace(image)))
  }

  /** `imageRepositoryOf` of the agent: parse, with the default tag where there is neither tag nor digest. */
  function AgentRepository(image: string): string {
    match ParseReference(Qualified(TrimSpace(image)))
    case None => ""
    case Some(r) => r.repository
  }

  function Qualified(s: string): string {
    if s != "" && '@' !in s && !IsTagged(s) then s + ":" + "latest" else s
  }

  /** `imageRepository` of the delivery agent: either the digest or the tag goes. */
  function DeliveryRepository(image: string): string {
    if '@' in image then BeforeDigest(image) else StripTag(image)
  }

  /** The renderer undoes printing: any repository with no tag of its own, any tag, any digest, any space around. */
  lemma RendererUndoesPrinting(raw: string, repository: string, tag: string, digest: string)
    requires '@' !in repository && '@' !in tag && ':' !in tag && '/' !in tag
    requires TrimSpace(raw) == Print(Reference(repository, tag, digest)) && (tag == "" ==> !IsTagged(repository))
    ensures RendererRepository(raw) == repository
  {
    var r := Reference(repository, tag, digest);
    assert '@' !in NameText(r);
    if digest != "" { BeforeDigestCuts(NameText(r), digest); }
    if tag != "" { TagIsCut(repository, tag); }
  }

  lemma ParsedRepository(raw: string)
    requires ParseReference(raw).Some?
    ensures ParseReference(raw).value.repository == RendererRepository(raw)
  {
  }

  lemma AppendedTagIsCut(s: string, tag: string)
    requires s != "" && IsTrimmed(s) && '@' !in s && tag != "" && AreNameChars(tag)
    ensures RendererRepository(s + ":" + tag) == s
  {
    var full := s + ":" + tag;
    NameIsPlain(tag);
    TagIsCut(s, tag);
    assert full[0] == s[0] && full[|full| - 1] == tag[|tag| - 1];
    TrimmedStays(full);
    assert '@' !in full;
  }

  lemma QualifyingKeepsRepository(s: string)
    requires IsTrimmed(s)
    ensures RendererRepository(Qualified(s)) == StripTag(BeforeDigest(s))
  {
    if s != "" && '@' !in s && !IsTagged(s) {
      AppendedTagIsCut(s, "latest");
    } else {
      TrimmedStays(s);
    }
  }

  /** Whenever the agent can tell a repository, it is the one the renderer wrote. */
  lemma AgentAgreesWithRenderer(image: string)
    requires AgentRepository(image) != ""
    ensures AgentRepository(image) == RendererRepository(image)
  {
    TrimSpaceTrims(image);
    QualifyingKeepsRepository(TrimSpace(image));
    ParsedRepository(Qualified(TrimSpace(image)));
  }

  /** The delivery agent keeps the tag of a reference that has both, and agrees with the parser on every other. */
  lemma DeliveryAgreesIff(r: Reference)
    requires IsReference(r)
    ensures DeliveryRepository(Print(r)) == r.repository <==> r.tag == "" || r.digest == ""
  {
    NameIsReadBack(r);
    if r.digest != "" {
      BeforeDigestCuts(NameText(r), r.digest);
      assert '@' in Print(r) by { assert Print(r)[|NameText(r)|] == '@'; }
    }
    if r.tag != "" {
      assert |NameText(r)| > |r.repository|;
    }
  }

  // ---- What the manifest records, by the form of the source ----

  /** A name without a slash belongs to the Docker library. */
  lemma BareNameIsLibrary(name: string)
    requires '/' !in name
    ensures Canonical(name) == "docker.io/library/" + name
  {
  }

  lemma SegmentBeforeSlash(owner: string, rest: string)
    requires '/' !in owner
    ensures FirstSegment(owner + "/" + rest) == owner && '/' in owner + "/" + rest
  {
    IndexIsFirst(owner, '/', rest);
    assert owner + ['/'] + rest == owner + "/" + rest;
    assert (owner + "/" + rest)[|owner|] == '/';
  }

  /** An owner with neither dot nor colon is one of Docker's; any other first segment is a registry of its own. */
  lemma OwnedNameIsDocker(owner: string, rest: string)
    requires '/' !in owner
    ensures Canonical(owner + "/" + rest) ==
      if '.' in owner || ':' in owner then owner + "/" + rest else "docker.io/" + (owner + "/" + rest)
  {
    SegmentBeforeSlash(owner, rest);
    assert HasAny(owner, {'.', ':'}) <==> '.' in owner || ':' in owner;
  }

  lemma TaggedSource(repository: string, tag: string)
    requires '@' !in repository && '@' !in tag && ':' !in tag && '/' !in tag
    ensures '@' !in repository + ":" + tag && StripTag(BeforeDigest(repository + ":" + tag)) == repository
  {
    TagIsCut(repository, tag);
    assert '@' !in repository + ":" + tag;
  }

  /** A tagged source is recorded under its completed repository with the digest the registry resolved. */
  lemma TaggedSourceRecorded(
    firstParty: map<string, string>, lookup: string -> Option<string>, repository: string, tag: string, text: string)
    requires '@' !in repository && '@' !in tag && ':' !in tag && '/' !in tag && repository !in firstParty
    requires lookup(Canonical(repository + ":" + tag)) == Some(text)
    ensures ManifestReference(firstParty, lookup, repository + ":" + tag) == Some(Canonical(repository) + "@" + TrimSpace(text))
  {
    TaggedSource(repository, tag);
    BothBranchesAgree(firstParty, lookup, repository + ":" + tag);
  }

  /** `name:tag` is recorded as `docker.io/library/name@digest`. */
  lemma LibraryImageRecorded(
    firstParty: map<string, string>, lookup: string -> Option<string>, name: string, tag: string, text: string)
    requires '/' !in name && '@' !in name && '@' !in tag && ':' !in tag && '/' !in tag && name !in firstParty
    requires lookup("docker.io/library/" + (name + ":" + tag)) == Some(text)
    ensures ManifestReference(firstParty, lookup, name + ":" + tag) == Some("docker.io/library/" + name + "@" + TrimSpace(text))
  {
    assert '/' !in name + ":" + tag;
    BareNameIsLibrary(name + ":" + tag);
    BareNameIsLibrary(name);
    TaggedSourceRecorded(firstParty, lookup, name, tag, text);
  }

  /** `owner/name:tag` is recorded as `docker.io/owner/name@digest`, where the owner is no registry. */
  lemma OwnedImageRecorded(
    firstParty: map<string, string>, lookup: string -> Option<string>, owner: string, name: string, tag: string, text: string)
    requires '/' !in owner && '.' !in owner && ':' !in owner && '@' !in owner && '@' !in name
    requires '@' !in tag && ':' !in tag && '/' !in tag && owner + "/" + name !in firstParty
    requires lookup("docker.io/" + (owner + "/" + (name + ":" + tag))) == Some(text)
    ensures ManifestReference(firstParty, lookup, owner + "/" + name + ":" + tag) ==
      Some("docker.io/" + (owner + "/" + name) + "@" + TrimSpace(text))
  {
    OwnedNameIsDocker(owner, name);
    OwnedNameIsDocker(owner, name + ":" + tag);
    assert owner + "/" + (name + ":" + tag) == owner + "/" + name + ":" + tag;
    TaggedSourceRecorded(firstParty, lookup, owner + "/" + name, tag, text);
  }

  /** A pinned source keeps its own digest, whatever its tag. */
  lemma PinnedSourceRecorded(
    firstParty: map<string, string>, lookup: string -> Option<string>, repository: string, tag: string, digest: string)
    requires '@' !in repository && '@' !in tag && ':' !in tag && '/' !in tag && repository !in firstParty
    ensures ManifestReference(firstParty, lookup, repository + ":" + tag + "@" + digest) ==
      Some(Canonical(repository) + "@" + digest)
  {
    var named := repository + ":" + tag;
    TaggedSource(repository, tag);
    BeforeDigestCuts(named, digest);
    assert '@' in named + "@" + digest by { assert (named + "@" + digest)[|named|] == '@'; }
    assert (named + "@" + digest)[|named| + 1..] == digest;
    assert BeforeDigest(named) == named;
    BothBranchesAgree(firstParty, lookup, named + "@" + digest);
  }

  /** A first-party repository is replaced by its own reference, whatever the tag. */
  lemma FirstPartyReplaced(
    firstParty: map<string, string>, lookup: string -> Option<string>, repository: string, tag: string)
    requires '@' !in repository && '@' !in tag && ':' !in tag && '/' !in tag && repository in firstParty
    ensures ManifestReference(firstParty, lookup, repository + ":" + tag) == Some(firstParty[repository])
  {
    TaggedSource(repository, tag);
  }

  // ---- The grammar of references, character by character ----

  predicate IsWordChar(c: char) {
    'a' <= c <= 'z' || 'A' <= c <= 'Z' || '0' <= c <= '9'
  }

  predicate IsPart(s: string) {
    && s != "" && IsWordChar(s[0]) && IsWordChar(s[|s| - 1])
    && forall i :: 0 <= i < |s| ==> IsWordChar(s[i]) || s[i] == '.' || s[i] == '_' || s[i] == '-'
  }

  predicate IsVersion(s: string) {
    && 1 <= |s| <= 128 && (IsWordChar(s[0]) || s[0] == '_')
    && forall i :: 0 <= i < |s| ==> IsWordChar(s[i]) || s[i] == '.' || s[i] == '_' || s[i] == '-'
  }

  predicate IsSha(s: string) {
    |s| == 71 && "sha256:" <= s && forall i :: 7 <= i < |s| ==> '0' <= s[i] <= '9' || 'a' <= s[i] <= 'f'
  }

  lemma PartIff(s: string)
    ensures IsSegment(s) <==> IsPart(s)
    ensures IsTag(s) <==> IsVersion(s)
    ensures IsDigest(s) <==> IsSha(s)
  {
  }

  /** Path segments, the first of which may carry a port of one to five digits, and no two dots in a row. */
  lemma RepositoryIff(segments: seq<string>)
    requires segments != [] && forall i :: 0 <= i < |segments| ==> '/' !in segments[i]
    ensures IsRepository(Join(segments, '/')) <==>
      && Join(segments, '/') != "" && !HasDoubleDot(Join(segments, '/')) && IsRegistry(segments[0])
      && forall i :: 1 <= i < |segments| ==> IsPart(segments[i])
  {
    SplitOfJoin(segments, '/');
    RegistryIff(segments[0]);
    forall i | 0 <= i < |segments| ensures IsSegment(segments[i]) <==> IsPart(segments[i]) { PartIff(segments[i]); }
  }

  ghost predicate IsRegistry(s: string) {
    || IsPart(s)
    || exists host, port :: IsPart(host) && IsPortNumber(port) && s == host + ":" + port
  }

  predicate IsPortNumber(port: string) {
    1 <= |port| <= 5 && forall i :: 0 <= i < |port| ==> '0' <= port[i] <= '9'
  }

  lemma PartHasNoColon(s: string)
    requires IsPart(s)
    ensures ':' !in s
  {
  }

  lemma PortedIff(s: string, i: nat)
    requires ':' in s && i == IndexOf(s, ':')
    ensures (IsPart(s[..i]) && IsPortNumber(s[i + 1..])) <==>
      exists host, port :: IsPart(host) && IsPortNumber(port) && s == host + ":" + port
  {
    assert s == s[..i] + ":" + s[i + 1..];
    if host, port :| IsPart(host) && IsPortNumber(port) && s == host + ":" + port {
      PartHasNoColon(host);
      IndexIsFirst(host, ':', port);
      assert host + [':'] + port == s;
      assert s[..i] == host && s[i + 1..] == port;
    }
  }

  lemma RegistryIff(s: string)
    ensures IsFirstSegment(s) <==> IsRegistry(s)
  {
    PartIff(s);
    if ':' in s {
      var i := IndexOf(s, ':');
      PortedIff(s, i);
      PartIff(s[..i]);
      if IsPart(s) { PartHasNoColon(s); }
    } else {
      assert forall host, port :: (host + ":" + port)[|host|] == ':';
    }
  }

  /** What the parser returns: a repository, a tag or a digest or both, in at most 512 characters. */
  lemma ReferenceIff(r: Reference)
    ensures IsReference(r) <==>
      && IsRepository(r.repository) && (r.tag == "" || IsVersion(r.tag)) && (r.digest == "" || IsSha(r.digest))
      && (r.tag != "" || r.digest != "") && (r.tag == "" ==> !IsTagged(r.repository)) && |Print(r)| <= 512
  {
    PartIff(r.tag);
    PartIff(r.digest);
  }
}
