/** Image references: the agent's parser, the three places that cut a repository out, and the release manifest. */
module ImageRefs {
  import opened Prelude
  import opened Text

  // ---- Cutting ----

  /** What stands before the first at sign. */
  function BeforeDigest(s: string): string {
    if '@' in s then s[..IndexOf(s, '@')] else s
  }

  /** The last colon is a tag separator if no slash follows it; otherwise it belongs to a registry port. */
  predicate IsTagged(s: string) {
    LastIndexOf(s, ':') > LastIndexOf(s, '/')
  }

  function StripTag(s: string): string {
    if IsTagged(s) then s[..LastIndexOf(s, ':')] else s
  }

  function TagOf(s: string): string {
    if IsTagged(s) then s[LastIndexOf(s, ':') + 1..] else ""
  }

  lemma LastSlashIsBefore(a: string, b: string)
    requires '/' !in b
    ensures LastIndexOf(a + b, '/') < |a|
  {
    assert forall i :: |a| <= i < |a + b| ==> (a + b)[i] == b[i - |a|];
  }

  lemma TagIsCut(a: string, tag: string)
    requires ':' !in tag && '/' !in tag
    ensures
      var s := a + ":" + tag;
      IsTagged(s) && StripTag(s) == a && TagOf(s) == tag
  {
    LastIndexIsLast(a, ':', tag);
    assert a + ":" + tag == a + [':'] + tag == a + (":" + tag);
    LastSlashIsBefore(a, ":" + tag);
  }

  lemma NoSlashAfter(s: string, i: nat)
    requires LastIndexOf(s, '/') < i < |s|
    ensures '/' !in s[i..]
  {
    var slash := LastIndexOf(s, '/');
    if slash >= 0 { assert s[i..] == s[slash + 1..][i - slash - 1..]; }
  }

  lemma TaggedIsCut(s: string)
    requires IsTagged(s)
    ensures s == StripTag(s) + ":" + TagOf(s) && ':' !in TagOf(s) && '/' !in TagOf(s)
  {
    var colon := LastIndexOf(s, ':');
    NoSlashAfter(s, colon);
    assert s[colon..] == [s[colon]] + s[colon + 1..];
    assert s == s[..colon] + s[colon..];
  }

  lemma PlainIsUntagged(s: string)
    requires ':' !in s
    ensures !IsTagged(s)
  {
  }

  lemma SlashAfterColonIsUntagged(a: string, b: string)
    requires ':' !in b
    ensures !IsTagged(a + "/" + b)
  {
    var s := a + "/" + b;
    assert s[|a|] == '/';
    assert forall i :: |a| < i < |s| ==> s[i] == b[i - |a| - 1];
    assert forall i :: 0 <= i <= |a| ==> s[i..][|a| - i] == '/';
  }

  /** An untagged text has no colon, or a slash after its last one. */
  lemma UntaggedShape(s: string) returns (a: string, b: string)
    requires !IsTagged(s) && ':' in s
    ensures s == a + "/" + b && ':' !in b
  {
    var colon := LastIndexOf(s, ':');
    var slash := LastIndexOf(s, '/');
    assert slash != colon;
    a, b := s[..slash], s[slash + 1..];
    assert forall i :: slash < i < |s| ==> s[i] == s[colon + 1..][i - colon - 1];
  }

  lemma BeforeDigestCuts(a: string, digest: string)
    requires '@' !in a
    ensures BeforeDigest(a + "@" + digest) == a && IndexOf(a + "@" + digest, '@') == |a|
  {
    IndexIsFirst(a, '@', digest);
    assert a + ['@'] + digest == a + "@" + digest;
  }

  // ---- The release manifest ----

  const DOCKER := "docker.io/"
  const LIBRARY := "docker.io/library/"

  function FirstSegment(s: string): string {
    if '/' in s then s[..IndexOf(s, '/')] else s
  }

  /** `canonicalRepository`, which the unpinned branch repeats on the whole source. */
  function Canonical(s: string): string {
    if '/' !in s then LIBRARY + s
    else if !HasAny(FirstSegment(s), {'.', ':'}) then DOCKER + s
    else s
  }

  /** What is put in front: it depends on the first segment only. */
  function Prefix(s: string): string {
    if '/' !in s then LIBRARY else if !HasAny(FirstSegment(s), {'.', ':'}) then DOCKER else ""
  }

  lemma CanonicalIsPrefixed(s: string)
    ensures Canonical(s) == Prefix(s) + s
  {
  }

  lemma FirstSegmentStays(a: string, rest: string)
    requires '/' in a
    ensures FirstSegment(a + rest) == FirstSegment(a)
  {
    var i := IndexOf(a, '/');
    IndexIsFirst(a[..i], '/', a[i + 1..] + rest);
    assert a[..i] + ['/'] + (a[i + 1..] + rest) == a + rest;
  }

  lemma PrefixIgnoresTag(a: string, tag: string)
    requires '/' !in tag
    ensures Prefix(a + ":" + tag) == Prefix(a)
  {
    var s := a + ":" + tag;
    if '/' in a {
      FirstSegmentStays(a, ":" + tag);
      assert s == a + (":" + tag);
      assert s[IndexOf(a, '/')] == '/';
    } else {
      assert '/' !in s;
    }
  }

  predicate IsPrefix(p: string) {
    p == "" || (':' !in p && p[|p| - 1] == '/')
  }

  lemma PrefixHasNoColon(s: string)
    ensures IsPrefix(Prefix(s))
  {
    assert LIBRARY[|LIBRARY| - 1] == '/' && DOCKER[|DOCKER| - 1] == '/';
    assert ':' !in LIBRARY && ':' !in DOCKER;
  }

  lemma PrefixKeepsUntagged(p: string, s: string)
    requires IsPrefix(p) && !IsTagged(s)
    ensures !IsTagged(p + s)
  {
    if ':' in s {
      var a, b := UntaggedShape(s);
      SlashAfterColonIsUntagged(p + a, b);
      assert p + a + "/" + b == p + s;
    } else {
      PlainIsUntagged(p + s);
    }
  }

  lemma TagIsCutBehind(p: string, a: string, tag: string)
    requires ':' !in tag && '/' !in tag
    ensures StripTag(p + (a + ":" + tag)) == p + a
  {
    TagIsCut(p + a, tag);
    assert p + (a + ":" + tag) == p + a + ":" + tag;
  }

  lemma TaggedCommutes(a: string, tag: string)
    requires ':' !in tag && '/' !in tag
    ensures StripTag(Prefix(a + ":" + tag) + (a + ":" + tag)) == Prefix(a) + a
  {
    PrefixIgnoresTag(a, tag);
    TagIsCutBehind(Prefix(a), a, tag);
  }

  lemma UntaggedCommutes(s: string)
    requires !IsTagged(s)
    ensures StripTag(Prefix(s) + s) == Prefix(s) + s
  {
    PrefixHasNoColon(s);
    PrefixKeepsUntagged(Prefix(s), s);
  }

  /** Completing a source and then dropping the tag is dropping the tag and then completing. */
  lemma CanonicalCommutes(s: string)
    ensures StripTag(Canonical(s)) == Canonical(StripTag(s))
  {
    CanonicalIsPrefixed(s);
    CanonicalIsPrefixed(StripTag(s));
    if IsTagged(s) {
      TaggedIsCut(s);
      TaggedCommutes(StripTag(s), TagOf(s));
    } else {
      UntaggedCommutes(s);
    }
  }

  lemma DockerIsComplete(tail: string)
    ensures Canonical(DOCKER + tail) == DOCKER + tail
  {
    var host := "docker.io";
    IndexIsFirst(host, '/', tail);
    assert host + ['/'] + tail == DOCKER + tail;
    assert FirstSegment(DOCKER + tail) == host && host[6] == '.';
  }

  lemma CanonicalIsIdempotent(s: string)
    ensures Canonical(Canonical(s)) == Canonical(s)
  {
    CanonicalIsPrefixed(s);
    if '/' !in s {
      DockerIsComplete("library/" + s);
      assert DOCKER + ("library/" + s) == LIBRARY + s;
    } else {
      DockerIsComplete(s);
    }
  }

  /**
   * The reference a manifest records for one source: a first-party replacement, the digest a registry lookup gives for
   * an unpinned source, or the source's own digest.
   */
  function ManifestReference(firstParty: map<string, string>, lookup: string -> Option<string>, source: string): Option<string> {
    var repo := StripTag(BeforeDigest(source));
    if repo in firstParty then Some(firstParty[repo])
    else if '@' !in source then
      var canonical := Canonical(source);
      match lookup(canonical)
      case None => None
      case Some(text) => Some(StripTag(BeforeDigest(canonical)) + "@" + TrimSpace(text))
    else Some(Canonical(repo) + "@" + source[IndexOf(source, '@') + 1..])
  }

  /** Both branches record one repository, the canonical form of the source's own; they differ in the digest only. */
  lemma BothBranchesAgree(firstParty: map<string, string>, lookup: string -> Option<string>, source: string)
    requires StripTag(BeforeDigest(source)) !in firstParty
    ensures
      var repo := Canonical(StripTag(BeforeDigest(source)));
      ManifestReference(firstParty, lookup, source) ==
        if '@' in source then Some(repo + "@" + source[IndexOf(source, '@') + 1..])
        else if lookup(Canonical(source)).None? then None
        else Some(repo + "@" + TrimSpace(lookup(Canonical(source)).value))
  {
    if '@' !in source {
      CanonicalCommutes(source);
      assert '@' !in Canonical(source) by { assert '@' !in LIBRARY && '@' !in DOCKER; }
    }
  }

  // ---- The agent's parser ----

  datatype Reference = Reference(repository: string, tag: string, digest: string)

  function NameText(r: Reference): string {
    if r.tag == "" then r.repository else r.repository + ":" + r.tag
  }

  function Print(r: Reference): string {
    if r.digest == "" then NameText(r) else NameText(r) + "@" + r.digest
  }

  predicate IsAlnum(c: char) { 'a' <= c <= 'z' || 'A' <= c <= 'Z' || '0' <= c <= '9' }

  predicate IsNameChar(c: char) { IsAlnum(c) || c == '.' || c == '_' || c == '-' }

  predicate AreNameChars(s: string) { forall i :: 0 <= i < |s| ==> IsNameChar(s[i]) }

  predicate IsSegment(s: string) {
    s != "" && AreNameChars(s) && IsAlnum(s[0]) && IsAlnum(s[|s| - 1])
  }

  predicate IsPortText(s: string) {
    1 <= |s| <= 5 && forall i :: 0 <= i < |s| ==> '0' <= s[i] <= '9'
  }

  predicate IsTag(s: string) {
    1 <= |s| <= 128 && AreNameChars(s) && (IsAlnum(s[0]) || s[0] == '_')
  }

  predicate IsDigest(s: string) {
    && |s| == 71 && s[..7] == "sha256:"
    && forall i :: 7 <= i < |s| ==> 'a' <= s[i] <= 'f' || '0' <= s[i] <= '9'
  }

  /** The registry segment may carry a port. */
  predicate IsFirstSegment(s: string) {
    if ':' in s then IsPortText(s[IndexOf(s, ':') + 1..]) && IsSegment(s[..IndexOf(s, ':')]) else IsSegment(s)
  }

  predicate HasDoubleDot(s: string) {
    exists i :: 0 < i < |s| && s[i - 1] == '.' && s[i] == '.'
  }

  predicate IsRepository(s: string) {
    var segments := Split(s, '/');
    && s != "" && !HasDoubleDot(s) && IsFirstSegment(segments[0])
    && forall i :: 1 <= i < |segments| ==> IsSegment(segments[i])
  }

  predicate IsVisible(s: string) {
    forall i :: 0 <= i < |s| ==> 0x20 < s[i] as int <= 0x7e
  }

  function ParseReference(raw: string): Option<Reference> {
    var s := TrimSpace(raw);
    if s == "" || Size(s) > 512 || !IsVisible(s) then None
    else
      var digest := if '@' in s then s[IndexOf(s, '@') + 1..] else "";
      if '@' in s && !IsDigest(digest) then None else ParseName(BeforeDigest(s), digest)
  }

  function ParseName(s: string, digest: string): Option<Reference> {
    var tag := TagOf(s);
    if IsTagged(s) && !IsTag(tag) then None
    else if !IsRepository(StripTag(s)) then None
    else if tag == "" && digest == "" then None
    else Some(Reference(StripTag(s), tag, digest))
  }

  /** The references the parser returns. */
  predicate IsReference(r: Reference) {
    && IsRepository(r.repository) && (r.tag == "" || IsTag(r.tag)) && (r.digest == "" || IsDigest(r.digest))
    && (r.tag != "" || r.digest != "") && (r.tag == "" ==> !IsTagged(r.repository)) && |Print(r)| <= 512
  }
}
