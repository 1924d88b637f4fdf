/**
 * One printed form per identity: normalising is idempotent, merges exactly the spellings of one identity, and its
 * results are mirror forms unless the port has a leading zero.
 */
module SourceIdentity {
  import opened Prelude
  import opened Text
  import opened Paths
  import opened SourceUrls

  // ---- Reading a spelled URL ----

  predicate IsName(name: string) {
    name != "" && forall i :: 0 <= i < |name| ==> IsAuthorityChar(name[i]) && name[i] != ':' && name[i] != '['
  }

  /** An optional port: absent, or a colon and digits. */
  function PortText(port: Option<string>): string {
    match port case None => "" case Some(digits) => ":" + digits
  }

  function PortDigits(port: Option<string>): string {
    match port case None => "" case Some(digits) => digits
  }

  function Spell(scheme: string, name: string, port: Option<string>, path: string): string {
    scheme + "://" + (name + PortText(port) + path)
  }

  lemma LowerSchemeHas(scheme: string, c: char)
    requires LowerScheme(scheme) == "https" && c in scheme
    ensures 'A' <= c <= 'Z' || 'a' <= c <= 'z'
  {
    var i :| 0 <= i < |scheme| && scheme[i] == c;
    assert LowerScheme(scheme)[i] in "https";
    assert "https"[i] == LowerScheme(scheme)[i];
    assert forall k :: 0 <= k < 5 ==> 'a' <= "https"[k] <= 'z';
  }

  lemma SpelledHasNoHash(scheme: string, rest: string)
    requires LowerScheme(scheme) == "https" && '#' !in rest
    ensures '#' !in scheme + "://" + rest
  {
    if '#' in scheme { LowerSchemeHas(scheme, '#'); }
  }

  lemma SpelledSlices(scheme: string, rest: string)
    requires |scheme| == 5
    ensures
      var raw := scheme + "://" + rest;
      raw[..5] == scheme && raw[5..8] == "://" && raw[8..] == rest
  {
  }

  lemma ParseWithoutDelimiters(net: Net, scheme: string, rest: string)
    requires LowerScheme(scheme) == "https" && '#' !in rest && '?' !in rest
    ensures Parse(net, scheme + "://" + rest) == ParseRest(net, rest, false, false)
  {
    assert |scheme| == |LowerScheme(scheme)| == 5;
    SpelledHasNoHash(scheme, rest);
    SpelledSlices(scheme, rest);
  }

  lemma ParseSpelled(net: Net, scheme: string, host: string, path: string)
    requires LowerScheme(scheme) == "https" && IsHost(net, host)
    requires IsTail(path) && ArePathChars(path)
    ensures Parse(net, scheme + "://" + (host + path)) == Some(Url(host, path, false, false, false))
  {
    DelimitersAreAbsent(net, host, path);
    ParseWithoutDelimiters(net, scheme, host + path);
    ParseRestCut(net, host, path);
  }

  lemma DelimitersAreAbsent(net: Net, host: string, path: string)
    requires IsHost(net, host) && ArePathChars(path)
    ensures '/' !in host && '@' !in host && '?' !in host + path && '#' !in host + path
  {
  }

  lemma ParseRestCut(net: Net, host: string, path: string)
    requires '/' !in host && '@' !in host && IsTail(path)
    ensures ParseRest(net, host + path, false, false) ==
      if IsHost(net, host) then Some(Url(host, path, false, false, false)) else None
  {
    var rest := host + path;
    if path == "" {
      assert rest == host;
    } else {
      IndexIsFirst(host, '/', path[1..]);
      assert host + ['/'] + path[1..] == rest;
    }
    assert Before(rest, IndexOf(rest, '/')) == host && rest[|host|..] == path;
    assert LastIndexOf(host, '@') == -1;
  }

  lemma NameIsAlone(name: string)
    requires IsName(name)
    ensures !HasPort(name) && NameOf(name) == name && PortOf(name) == ""
  {
    assert LastIndexOf(name, ':') == -1;
  }

  lemma PortIsCut(name: string, digits: string)
    requires IsName(name) && AreDigits(digits)
    ensures
      var host := name + ":" + digits;
      && LastIndexOf(host, ':') == |name| && host[|name| + 1..] == digits && host[..|name|] == name
      && NameOf(host) == name && PortOf(host) == digits
  {
    LastIndexIsLast(name, ':', digits);
    assert name + [':'] + digits == name + ":" + digits;
  }

  lemma HostPartsSpelled(name: string, port: Option<string>)
    requires IsName(name) && AreDigits(PortDigits(port))
    ensures NameOf(name + PortText(port)) == name && PortOf(name + PortText(port)) == PortDigits(port)
  {
    if port.None? {
      NameIsAlone(name);
      assert name + "" == name;
    } else {
      PortIsCut(name, port.value);
      assert name + ":" + port.value == name + PortText(port);
    }
  }

  lemma NameIsHost(net: Net, name: string)
    requires IsName(name)
    ensures IsHost(net, name)
  {
    assert LastIndexOf(name, ':') == -1;
  }

  lemma NameWithPortIsHost(net: Net, name: string, digits: string)
    requires IsName(name) && AreDigits(digits)
    ensures IsHost(net, name + ":" + digits)
  {
    var host := name + ":" + digits;
    PortIsCut(name, digits);
    assert host[0] == name[0];
  }

  lemma HostSpelledIsHost(net: Net, name: string, port: Option<string>)
    requires IsName(name) && AreDigits(PortDigits(port))
    ensures IsHost(net, name + PortText(port))
  {
    if port.None? {
      NameIsHost(net, name);
      assert name + "" == name;
    } else {
      NameWithPortIsHost(net, name, port.value);
      assert name + ":" + port.value == name + PortText(port);
    }
  }

  predicate HasIdentity(net: Net, name: string, port: string, path: string) {
    IsPublicHost(net, LowerAll(name)) && (port != "" ==> IsPort(port)) && !HasDoubleSlash(path)
  }

  predicate IsBounded(raw: string) {
    Size(raw) <= 2048 && TrimSpace(raw) == raw
  }

  lemma SpelledUrlIdentity(net: Net, name: string, port: Option<string>, path: string)
    requires IsName(name) && AreDigits(PortDigits(port)) && ArePathChars(path)
    ensures
      IdentifyUrl(net, Url(name + PortText(port), path, false, false, false)) ==
        if HasIdentity(net, name, PortDigits(port), path)
        then Some(Identity(LowerAll(name), DropDefault(PortDigits(port)), Segments(path)))
        else None
  {
    HostPartsSpelled(name, port);
  }

  /** What becomes of any spelling: any case of scheme and host, any port, any path of plain characters. */
  lemma SpelledIdentity(net: Net, scheme: string, name: string, port: Option<string>, path: string)
    requires LowerScheme(scheme) == "https" && IsName(name) && AreDigits(PortDigits(port))
    requires IsTail(path) && ArePathChars(path)
    ensures
      var raw := Spell(scheme, name, port, path);
      Identify(net, raw) ==
        if IsBounded(raw) && HasIdentity(net, name, PortDigits(port), path)
        then Some(Identity(LowerAll(name), DropDefault(PortDigits(port)), Segments(path)))
        else None
  {
    HostSpelledIsHost(net, name, port);
    ParseSpelled(net, scheme, name + PortText(port), path);
    SpelledUrlIdentity(net, name, port, path);
    assert |Spell(scheme, name, port, path)| >= |name| > 0;
  }

  // ---- Identities that occur ----

  predicate IsIdentity(net: Net, id: Identity) {
    && IsPublicHost(net, id.hostname) && id.port != "443" && (id.port != "" ==> IsPort(id.port))
    && ArePlain(id.segments) && (forall i :: 0 <= i < |id.segments| ==> ArePathChars(id.segments[i]))
    && |Print(id)| <= 2048
  }

  lemma HostnameChars(s: string, i: nat)
    requires IsHostname(s) && i < |s|
    ensures IsHostChar(s[i])
  {
    if s[i] != '.' {
      SplitCovers(s, '.', i);
      var labels := Split(s, '.');
      var j :| 0 <= j < |labels| && s[i] in labels[j];
      assert IsLabel(labels[j]);
    }
  }

  lemma HostnameIsName(s: string)
    requires IsHostname(s)
    ensures IsName(s) && LowerAll(s) == s && ArePathChars(s)
  {
    assert s != "" by { assert Split("", '.') == [""]; }
    forall i | 0 <= i < |s| ensures IsHostChar(s[i]) { HostnameChars(s, i); }
    assert LowerAll(s) == s;
  }

  lemma {:induction false} JoinIsClean(segments: seq<string>)
    requires segments != [] && ArePlain(segments)
    requires forall i :: 0 <= i < |segments| ==> ArePathChars(segments[i])
    ensures
      var s := Join(segments, '/');
      s != "" && s[0] != '/' && s[|s| - 1] != '/' && !HasDoubleSlash(s) && ArePathChars(s)
  {
    assert IsPlainSegment(segments[0]);
    if |segments| > 1 {
      JoinIsClean(segments[1..]);
    }
  }

  lemma PathIsClean(segments: seq<string>)
    requires ArePlain(segments) && forall i :: 0 <= i < |segments| ==> ArePathChars(segments[i])
    ensures IsTail(PathOf(segments)) && !HasDoubleSlash(PathOf(segments)) && ArePathChars(PathOf(segments))
  {
    if segments != [] { JoinIsClean(segments); }
  }

  lemma PrintIsPlain(net: Net, id: Identity)
    requires IsIdentity(net, id)
    ensures ArePathChars(Print(id))
  {
    HostnameIsName(id.hostname);
    PathIsClean(id.segments);
    assert ArePathChars("https" + "://");
  }

  lemma PlainTextIsTrimmed(s: string)
    requires ArePathChars(s)
    ensures TrimSpace(s) == s && Size(s) == |s|
  {
    SizeBounds(s);
    TrimmedStays(s);
  }

  function PrintedPort(id: Identity): Option<string> {
    if id.port == "" then None else Some(id.port)
  }

  lemma PrintIsSpelling(id: Identity)
    ensures Print(id) == Spell("https", id.hostname, PrintedPort(id), PathOf(id.segments))
  {
  }

  /** A printed identity is accepted and read back. */
  lemma IdentityIsReadBack(net: Net, id: Identity)
    requires IsIdentity(net, id)
    ensures Identify(net, Print(id)) == Some(id)
  {
    HostnameIsName(id.hostname);
    PathIsClean(id.segments);
    PrintIsPlain(net, id);
    PlainTextIsTrimmed(Print(id));
    PrintIsSpelling(id);
    assert LowerScheme("https") == "https";
    SpelledIdentity(net, "https", id.hostname, PrintedPort(id), PathOf(id.segments));
    SegmentsOfPathOf(id.segments);
  }

  lemma ParsedRestFits(net: Net, rest: string, query: bool, fragment: bool)
    requires ParseRest(net, rest, query, fragment).Some?
    ensures
      var url := ParseRest(net, rest, query, fragment).value;
      |url.host| + |url.path| <= |rest| && IsTail(url.path)
  {
    var slash := IndexOf(rest, '/');
    assert slash >= 0 ==> rest[slash] == '/';
  }

  lemma ParsedFits(net: Net, raw: string)
    requires Parse(net, raw).Some?
    ensures
      var url := Parse(net, raw).value;
      8 + |url.host| + |url.path| <= |raw| && IsTail(url.path)
  {
    var text := Before(raw, IndexOf(raw, '#'));
    var rest := Before(text[8..], IndexOf(text[8..], '?'));
    ParsedRestFits(net, rest, |rest| < |text[8..]|, |text| + 1 < |raw|);
  }

  lemma HostPartsFit(host: string)
    ensures |NameOf(host)| + (if PortOf(host) == "" then 0 else |PortOf(host)| + 1) <= |host|
  {
  }

  lemma PrintFits(net: Net, url: Url)
    requires IdentifyUrl(net, url).Some? && IsTail(url.path)
    ensures |Print(IdentifyUrl(net, url).value)| <= 8 + |url.host| + |url.path|
  {
    var id := IdentifyUrl(net, url).value;
    HostPartsFit(url.host);
    CleaningShrinks(url.path);
    assert |Authority(id)| <= |url.host|;
  }

  lemma UrlHasIdentity(net: Net, url: Url)
    requires IdentifyUrl(net, url).Some? && IsTail(url.path) && 8 + |url.host| + |url.path| <= 2048
    ensures IsIdentity(net, IdentifyUrl(net, url).value)
  {
    var id := IdentifyUrl(net, url).value;
    PrintFits(net, url);
    SegmentsArePlain(url.path);
    forall i | 0 <= i < |id.segments| ensures ArePathChars(id.segments[i]) {
      SegmentChars(url.path, i);
    }
  }

  /** Every accepted URL has such an identity; printing it never makes the text longer. */
  lemma IdentifiedIsIdentity(net: Net, raw: string)
    requires Identify(net, raw).Some?
    ensures IsIdentity(net, Identify(net, raw).value)
  {
    ParsedFits(net, raw);
    SizeBounds(raw);
    UrlHasIdentity(net, Parse(net, raw).value);
  }

  lemma SegmentChars(path: string, i: nat)
    requires ArePathChars(path) && i < |Segments(path)|
    ensures ArePathChars(Segments(path)[i])
  {
    var s := Segments(path)[i];
    forall k | 0 <= k < |s| ensures IsPathChar(s[k]) {
      SegmentsHoldChars(path, i, s[k]);
    }
  }

  // ---- The normaliser ----

  lemma NormalizeIsIdempotent(net: Net, raw: string)
    requires NormalizeSource(net, raw).Some?
    ensures NormalizeSource(net, NormalizeSource(net, raw).value) == NormalizeSource(net, raw)
  {
    IdentifiedIsIdentity(net, raw);
    IdentityIsReadBack(net, Identify(net, raw).value);
  }

  /** Two accepted URLs get one form exactly when they have one identity: spellings merge, repositories never do. */
  lemma NormalFormsAreIdentities(net: Net, a: string, b: string)
    requires Identify(net, a).Some? && Identify(net, b).Some?
    ensures NormalizeSource(net, a) == NormalizeSource(net, b) <==> Identify(net, a) == Identify(net, b)
  {
    IdentifiedIsIdentity(net, a);
    IdentifiedIsIdentity(net, b);
    IdentityIsReadBack(net, Identify(net, a).value);
    IdentityIsReadBack(net, Identify(net, b).value);
  }

  /** A URL is its own normal form exactly when it is the printed form of an identity. */
  lemma NormalFormIff(net: Net, raw: string)
    ensures NormalizeSource(net, raw) == Some(raw) <==> exists id :: IsIdentity(net, id) && raw == Print(id)
  {
    if NormalizeSource(net, raw) == Some(raw) {
      IdentifiedIsIdentity(net, raw);
      assert raw == Print(Identify(net, raw).value);
    }
    if id :| IsIdentity(net, id) && raw == Print(id) {
      IdentityIsReadBack(net, id);
    }
  }

  /** Spellings that differ in scheme case, host case, an explicit 443 or an empty port, dot segments, a trailing slash. */
  lemma SpellingsMerge(net: Net, scheme: string, a: string, b: string, path: string, name: string, rest: string)
    requires LowerScheme(scheme) == "https" && IsName(a) && IsName(b) && LowerAll(a) == LowerAll(b)
    requires IsTail(path) && IsTail(rest) && IsPlainSegment(name) && ArePathChars(path + "/" + name + rest)
    ensures
      var first := Spell("https", a, None, path + rest);
      var second := Spell(scheme, b, Some("443"), path + "/" + name + "/.." + rest);
      var third := Spell(scheme, b, Some(""), path + "/." + rest);
      var bare := Spell("https", a, None, path);
      var slashed := Spell(scheme, b, None, path + "/");
      && (Identify(net, first).Some? && Identify(net, second).Some? ==> NormalizeSource(net, first) == NormalizeSource(net, second))
      && (Identify(net, first).Some? && Identify(net, third).Some? ==> NormalizeSource(net, first) == NormalizeSource(net, third))
      && (Identify(net, bare).Some? && Identify(net, slashed).Some? ==> NormalizeSource(net, bare) == NormalizeSource(net, slashed))
  {
    DotSegmentsVanish(path, name, rest);
    assert LowerScheme("https") == "https";
    CharsOfParts(path, name, rest);
    SpelledIdentity(net, "https", a, None, path + rest);
    SpelledIdentity(net, scheme, b, Some("443"), path + "/" + name + "/.." + rest);
    SpelledIdentity(net, scheme, b, Some(""), path + "/." + rest);
    SpelledIdentity(net, "https", a, None, path);
    SpelledIdentity(net, scheme, b, None, path + "/");
  }

  lemma CharsOfParts(path: string, name: string, rest: string)
    requires IsTail(path) && IsTail(rest) && ArePathChars(path + "/" + name + rest)
    ensures ArePathChars(path) && ArePathChars(path + "/") && IsTail(path + "/")
    ensures ArePathChars(path + rest) && IsTail(path + rest)
    ensures ArePathChars(path + "/." + rest) && IsTail(path + "/." + rest)
    ensures ArePathChars(path + "/" + name + "/.." + rest) && IsTail(path + "/" + name + "/.." + rest)
  {
    var whole := path + "/" + name + rest;
    forall i | 0 <= i < |path| ensures IsPathChar(path[i]) { assert whole[i] == path[i]; }
    forall i | 0 <= i < |name| ensures IsPathChar(name[i]) { assert whole[|path| + 1 + i] == name[i]; }
    forall i | 0 <= i < |rest| ensures IsPathChar(rest[i]) { assert whole[|path| + 1 + |name| + i] == rest[i]; }
  }
}
