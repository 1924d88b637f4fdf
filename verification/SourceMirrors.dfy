/** Mirror URLs: they have one spelling each, and the normal forms of public repositories are among them. */
module SourceMirrors {
  import opened Prelude
  import opened Text
  import opened Paths
  import opened SourceUrls
  import opened SourceIdentity

  // ---- Decimal numbers ----

  lemma {:induction false} ItoaHasNoLeadingZero(n: nat)
    requires n >= 1
    ensures Itoa(n) != "" && Itoa(n)[0] != '0'
  {
    if n >= 10 { ItoaHasNoLeadingZero(n / 10); }
  }

  lemma {:induction false} ValueIsPositive(digits: string)
    requires AreDigits(digits) && digits != "" && digits[0] != '0'
    ensures Value(digits) >= 1
  {
    if |digits| > 1 { ValueIsPositive(digits[..|digits| - 1]); }
  }

  lemma {:induction false} ItoaOfValue(digits: string)
    requires AreDigits(digits) && digits != "" && digits[0] != '0'
    ensures Itoa(Value(digits)) == digits
  {
    var n := |digits| - 1;
    var last := (digits[n] - '0') as nat;
    assert digits == digits[..n] + [digits[n]];
    if n > 0 {
      ValueIsPositive(digits[..n]);
      ItoaOfValue(digits[..n]);
      assert Value(digits) / 10 == Value(digits[..n]) && Value(digits) % 10 == last;
    } else {
      assert Value(digits[..0]) == 0;
    }
  }

  /** A port is written as its own decimal form exactly when it does not start with a zero. */
  lemma PortIsDecimalIff(port: string)
    requires IsPort(port) && port != ""
    ensures Itoa(Value(port)) == port <==> port[0] != '0'
  {
    ItoaHasNoLeadingZero(Value(port));
    if port[0] != '0' { ItoaOfValue(port); }
  }

  // ---- Normal forms as mirrors ----

  predicate IsLowerAscii(s: string) {
    LowerAll(s) == s && forall i :: 0 <= i < |s| ==> (s[i] as int) < 0x80
  }

  lemma LowerAsciiJoins(a: string, b: string)
    requires IsLowerAscii(a) && IsLowerAscii(b)
    ensures IsLowerAscii(a + b)
  {
    assert LowerAll(a + b) == LowerAll(a) + LowerAll(b);
  }

  lemma HostnameIsLowerAscii(s: string)
    requires IsHostname(s)
    ensures IsLowerAscii(s)
  {
    HostnameIsName(s);
  }

  lemma PortIsLowerAscii(port: string)
    requires AreDigits(port)
    ensures IsLowerAscii(":" + port)
  {
    assert LowerAll(":" + port) == ":" + port;
  }

  lemma AuthorityIsLowerAscii(id: Identity)
    requires IsHostname(id.hostname) && AreDigits(id.port)
    ensures IsLowerAscii(Authority(id))
  {
    HostnameIsLowerAscii(id.hostname);
    PortIsLowerAscii(id.port);
    LowerAsciiJoins(id.hostname, ":" + id.port);
    assert id.hostname + (":" + id.port) == id.hostname + ":" + id.port;
  }

  lemma AuthorityParts(net: Net, id: Identity)
    requires IsHostname(id.hostname) && AreDigits(id.port)
    ensures IsHost(net, Authority(id)) && NameOf(Authority(id)) == id.hostname && PortOf(Authority(id)) == id.port
  {
    HostnameIsName(id.hostname);
    if id.port == "" {
      NameIsAlone(id.hostname);
      NameIsHost(net, id.hostname);
    } else {
      PortIsCut(id.hostname, id.port);
      NameWithPortIsHost(net, id.hostname, id.port);
    }
  }

  lemma LastPieceIsEmpty(s: string)
    requires EndsWith(s, ".")
    ensures Split(s, '.')[|Split(s, '.')| - 1] == ""
  {
    var stem := s[..|s| - 1];
    SplitConcat(stem, "", '.');
    assert s == stem + s[|s| - 1..] == stem + ['.'] + "";
  }

  lemma HostnameEndsInLabel(s: string)
    requires IsHostname(s)
    ensures !EndsWith(s, ".")
  {
    if EndsWith(s, ".") { LastPieceIsEmpty(s); }
  }

  lemma HostUnchanged(id: Identity)
    requires IsHostname(id.hostname) && AreDigits(id.port) && id.port != "443"
    requires PortOf(Authority(id)) == id.port
    ensures MirrorHost(Authority(id)) == Authority(id)
  {
    AuthorityIsLowerAscii(id);
  }

  function PrintedUrl(id: Identity): Url {
    Url(Authority(id), PathOf(id.segments), false, false, false)
  }

  lemma PrintIsParsed(net: Net, id: Identity, path: string)
    requires IsHost(net, Authority(id)) && path == PathOf(id.segments) && IsTail(path) && ArePathChars(path)
    ensures Parse(net, Print(id)) == Some(PrintedUrl(id))
  {
    assert LowerScheme("https") == "https";
    ParseSpelled(net, "https", Authority(id), path);
  }

  lemma PrintedUrlIsMirrorIff(net: Net, id: Identity)
    requires IsIdentity(net, id)
    ensures IsMirrorUrl(PrintedUrl(id)) <==> id.port == "" || id.port[0] != '0'
    ensures MirrorText(PrintedUrl(id)) == Print(id)
  {
    AuthorityParts(net, id);
    HostUnchanged(id);
    HostnameIsName(id.hostname);
    HostnameEndsInLabel(id.hostname);
    PathIsClean(id.segments);
    SegmentsOfPathOf(id.segments);
    if id.port != "" { PortIsDecimalIff(id.port); }
  }

  lemma PlainHoldsNoForbidden(s: string)
    requires ArePathChars(s)
    ensures !HasAny(s, {'\\', '\0', '%'})
  {
  }

  lemma PrintedIsMirrorSpellingIff(net: Net, id: Identity)
    requires IsIdentity(net, id)
    ensures IsMirrorSpelling(Print(id), PrintedUrl(id)) <==> id.port == "" || id.port[0] != '0'
  {
    PrintIsPlain(net, id);
    PlainHoldsNoForbidden(Print(id));
    AuthorityIsLowerAscii(id);
    PrintedUrlIsMirrorIff(net, id);
  }

  /** A normal form is accepted as mirror, unchanged, exactly when its port has no leading zero. */
  lemma NormalFormIsMirrorIff(net: Net, id: Identity)
    requires IsIdentity(net, id)
    ensures NormalizeMirror(net, Print(id)) == (if id.port != "" && id.port[0] == '0' then None else Some(Print(id)))
  {
    AuthorityParts(net, id);
    PathIsClean(id.segments);
    PrintIsParsed(net, id, PathOf(id.segments));
    PrintedIsMirrorSpellingIff(net, id);
  }

  // ---- Which texts are mirror URLs ----

  predicate IsMirrorHost(net: Net, host: string) {
    && IsHost(net, host) && IsLowerAscii(host) && NameOf(host) != "" && !EndsWith(NameOf(host), ".")
    && PortOf(host) != "443" && IsMirrorPort(PortOf(host))
  }

  predicate ArePathSegments(segments: seq<string>) {
    ArePlain(segments) && forall i :: 0 <= i < |segments| ==> ArePathChars(segments[i])
  }

  predicate HoldsNoDelimiter(host: string) {
    '/' !in host && '@' !in host && '?' !in host && '#' !in host
  }

  lemma HostHoldsNoDelimiter(net: Net, host: string)
    requires IsHost(net, host)
    ensures HoldsNoDelimiter(host) && HoldsNoDelimiter(LowerAll(host))
  {
  }

  lemma NameHoldsNo(host: string, c: char)
    requires c !in host
    ensures c !in NameOf(host)
  {
    assert c !in Stem(host) by { assert Stem(host) == host[..|Stem(host)|]; }
  }

  lemma MirrorHostHoldsNo(host: string, c: char)
    requires c !in LowerAll(host) && c != '[' && c != ']'
    ensures c !in MirrorHost(host)
  {
    NameHoldsNo(LowerAll(host), c);
  }

  lemma MirrorHostHoldsNoDelimiter(net: Net, host: string)
    requires IsHost(net, host)
    ensures HoldsNoDelimiter(MirrorHost(host))
  {
    HostHoldsNoDelimiter(net, host);
    MirrorHostHoldsNo(host, '/');
    MirrorHostHoldsNo(host, '@');
    MirrorHostHoldsNo(host, '?');
    MirrorHostHoldsNo(host, '#');
  }

  /** A host that is rewritten to itself had no default port and no capital. */
  lemma FixedHost(host: string)
    requires MirrorHost(host) == host
    ensures LowerAll(host) == host && PortOf(host) != "443"
  {
    HostPartsFit(LowerAll(host));
  }

  lemma MirrorParts(net: Net, raw: string)
    requires IsMirror(net, raw)
    ensures
      var url := Parse(net, raw).value;
      IsMirrorHost(net, url.host) && ArePathSegments(Segments(url.path)) && raw == Https(url.host, PathOf(Segments(url.path)))
  {
    var url := Parse(net, raw).value;
    var segments := Segments(url.path);
    var host, path := MirrorHost(url.host), PathOf(segments);
    ParsedIsHost(net, raw);
    MirrorHostHoldsNoDelimiter(net, url.host);
    SegmentsArePlain(url.path);
    forall i | 0 <= i < |segments| ensures ArePathChars(segments[i]) { SegmentChars(url.path, i); }
    PathIsClean(segments);
    ReadBack(net, host, path);
    FixedHost(url.host);
  }

  lemma ParsedIsHost(net: Net, raw: string)
    requires Parse(net, raw).Some?
    ensures IsHost(net, Parse(net, raw).value.host)
  {
  }

  lemma ReadBack(net: Net, host: string, path: string)
    requires HoldsNoDelimiter(host) && IsTail(path) && ArePathChars(path)
    ensures Parse(net, Https(host, path)) == if IsHost(net, host) then Some(Url(host, path, false, false, false)) else None
  {
    assert LowerScheme("https") == "https";
    assert '?' !in host + path && '#' !in host + path;
    ParseWithoutDelimiters(net, "https", host + path);
    ParseRestCut(net, host, path);
  }

  lemma AuthorityHoldsNoForbidden(net: Net, host: string, path: string)
    requires IsHost(net, host) && ArePathChars(path)
    ensures !HasAny(Https(host, path), {'\\', '\0', '%'})
  {
    PlainHoldsNoForbidden("https" + "://");
    PlainHoldsNoForbidden(path);
    assert !HasAny(host, {'\\', '\0', '%'});
  }

  lemma PrintedIsMirror(net: Net, host: string, segments: seq<string>)
    requires IsMirrorHost(net, host) && ArePathSegments(segments)
    ensures IsMirror(net, Https(host, PathOf(segments)))
    ensures Parse(net, Https(host, PathOf(segments))) == Some(Url(host, PathOf(segments), false, false, false))
  {
    var path := PathOf(segments);
    HostHoldsNoDelimiter(net, host);
    PathIsClean(segments);
    ReadBack(net, host, path);
    SegmentsOfPathOf(segments);
    AuthorityHoldsNoForbidden(net, host, path);
    var url := Url(host, path, false, false, false);
    assert MirrorHost(host) == host;
    assert IsMirrorUrl(url) && MirrorText(url) == Https(host, path);
  }

  /** Mirror URLs are exactly the printed forms of a lower-case host with a decimal port other than 443, and plain segments. */
  lemma MirrorIff(net: Net, raw: string)
    ensures IsMirror(net, raw) <==>
      exists host, segments :: IsMirrorHost(net, host) && ArePathSegments(segments) && raw == Https(host, PathOf(segments))
  {
    if IsMirror(net, raw) {
      MirrorParts(net, raw);
    }
    if host, segments :| IsMirrorHost(net, host) && ArePathSegments(segments) && raw == Https(host, PathOf(segments)) {
      PrintedIsMirror(net, host, segments);
    }
  }

  predicate IsOciPath(net: Net, host: string, segments: seq<string>) {
    IsMirrorHost(net, host) && ArePathSegments(segments) && segments != []
  }

  lemma OciReadsWeb(net: Net, raw: string)
    requires |raw| >= 6 && raw[..6] == "oci://" && IsMirror(net, Https(raw[6..], ""))
    ensures
      var url := Parse(net, Https(raw[6..], "")).value;
      && IsMirrorHost(net, url.host) && ArePathSegments(Segments(url.path))
      && raw == "oci://" + (url.host + PathOf(Segments(url.path))) && url.path == PathOf(Segments(url.path))
  {
    var web := Https(raw[6..], "");
    MirrorParts(net, web);
    var url := Parse(net, web).value;
    var path := PathOf(Segments(url.path));
    EqualAfterScheme(raw[6..] + "", url.host + path);
    assert raw[6..] + "" == raw[6..];
    assert raw == "oci://" + raw[6..];
    PrintedIsMirror(net, url.host, Segments(url.path));
  }

  lemma EqualAfterScheme(a: string, b: string)
    requires "https" + "://" + a == "https" + "://" + b
    ensures a == b
  {
    assert ("https" + "://" + a)[8..] == a && ("https" + "://" + b)[8..] == b;
  }

  lemma OciPrinted(net: Net, host: string, segments: seq<string>)
    requires IsOciPath(net, host, segments)
    ensures NormalizeOci(net, "oci://" + (host + PathOf(segments))) == Some("oci://" + (host + PathOf(segments)))
  {
    PrintedIsMirror(net, host, segments);
    OciOfWeb(net, host, PathOf(segments));
    assert PathOf(segments) != "";
  }

  /** An OCI source is read through the `https` URL it stands for. */
  lemma OciOfWeb(net: Net, host: string, path: string)
    requires IsMirror(net, Https(host, path)) && Parse(net, Https(host, path)).value.path != ""
    ensures NormalizeOci(net, "oci://" + (host + path)) == Some("oci://" + (host + path))
  {
    var raw := "oci://" + (host + path);
    assert raw[..6] == "oci://" && raw[6..] == host + path;
    assert Https(raw[6..], "") == Https(host, path) by { assert raw[6..] + "" == host + path; }
  }

  /** OCI sources are exactly `oci://`, a mirror host, and at least one plain segment. */
  lemma OciIff(net: Net, raw: string)
    ensures NormalizeOci(net, raw).Some? ==> NormalizeOci(net, raw) == Some(raw)
    ensures NormalizeOci(net, raw).Some? <==>
      exists host, segments :: IsOciPath(net, host, segments) && raw == "oci://" + (host + PathOf(segments))
  {
    if NormalizeOci(net, raw).Some? {
      OciReadsWeb(net, raw);
      var url := Parse(net, Https(raw[6..], "")).value;
      assert IsOciPath(net, url.host, Segments(url.path));
    }
    if host, segments :| IsOciPath(net, host, segments) && raw == "oci://" + (host + PathOf(segments)) {
      OciPrinted(net, host, segments);
    }
  }

  // ---- How many spellings a mirror has ----

  /** Where a URL points: an address or a name, its port, and the path. */
  datatype Endpoint = Endpoint(bracketed: bool, name: string, port: string, segments: seq<string>)

  function EndpointOf(url: Url): Endpoint {
    Endpoint(IsBracketed(Stem(url.host)), NameOf(url.host), PortOf(url.host), Segments(url.path))
  }

  lemma StemFromParts(a: string, b: string)
    requires IsBracketed(Stem(a)) == IsBracketed(Stem(b)) && NameOf(a) == NameOf(b)
    ensures Stem(a) == Stem(b)
  {
    if IsBracketed(Stem(a)) {
      assert Stem(a) == "[" + NameOf(a) + "]" && Stem(b) == "[" + NameOf(b) + "]";
    }
  }

  lemma HostFromParts(a: string, b: string)
    requires Stem(a) == Stem(b) && HasPort(a) == HasPort(b) && PortOf(a) == PortOf(b)
    ensures a == b
  {
    if HasPort(a) {
      assert a == Stem(a) + ":" + PortOf(a) && b == Stem(b) + ":" + PortOf(b);
    }
  }

  /** Two mirror URLs of one endpoint are one text exactly when both or neither has the colon of an empty port. */
  lemma MirrorSpellingsAgreeIff(net: Net, a: string, b: string)
    requires IsMirror(net, a) && IsMirror(net, b)
    requires EndpointOf(Parse(net, a).value) == EndpointOf(Parse(net, b).value)
    ensures a == b <==> HasPort(Parse(net, a).value.host) == HasPort(Parse(net, b).value.host)
  {
    MirrorParts(net, a);
    MirrorParts(net, b);
    var host, other := Parse(net, a).value.host, Parse(net, b).value.host;
    StemFromParts(host, other);
    if HasPort(host) == HasPort(other) { HostFromParts(host, other); }
  }

  lemma ColonEndsHost(host: string)
    requires ':' !in host
    ensures HasPort(host + ":") && Stem(host + ":") == host && PortOf(host + ":") == ""
    ensures !HasPort(host) && Stem(host) == host && PortOf(host) == ""
    ensures LastIndexOf(host + ":", ':') == |host|
  {
    LastIndexIsLast(host, ':', "");
    assert host + [':'] + "" == host + ":";
    assert LastIndexOf(host, ':') == -1;
  }

  lemma NoColonMeansNoBracket(net: Net, host: string)
    requires IsHost(net, host) && ':' !in host
    ensures !StartsWithBracket(host)
  {
    assert forall k :: 1 <= k <= |host| ==> ':' !in host[1..k];
  }

  lemma ColonIsHostChar(host: string)
    requires HasHostChars(host)
    ensures HasHostChars(host + ":")
  {
  }

  lemma ColonKeepsHost(net: Net, host: string)
    requires IsHost(net, host) && host != "" && ':' !in host
    ensures IsHost(net, host + ":")
  {
    NoColonMeansNoBracket(net, host);
    ColonEndsHost(host);
    ColonIsHostChar(host);
    assert (host + ":")[0] == host[0];
  }

  lemma EmptyPort(net: Net, host: string)
    requires IsMirrorHost(net, host) && ':' !in host
    ensures IsMirrorHost(net, host + ":") && HasPort(host + ":") && !HasPort(host)
    ensures Stem(host + ":") == Stem(host) && PortOf(host + ":") == PortOf(host)
  {
    ColonEndsHost(host);
    ColonKeepsHost(net, host);
    ColonIsLowerAscii(host);
  }

  lemma ColonIsLowerAscii(host: string)
    requires IsLowerAscii(host)
    ensures IsLowerAscii(host + ":")
  {
    assert LowerAll(":") == ":";
    LowerAsciiJoins(host, ":");
  }

  lemma LongerHostDiffers(host: string, path: string)
    ensures Https(host, path) != Https(host + ":", path)
  {
    assert |Https(host, path)| + 1 == |Https(host + ":", path)|;
  }

  function PlainUrl(host: string, path: string): Url {
    Url(host, path, false, false, false)
  }

  lemma SameEndpoint(host: string, other: string, path: string)
    requires Stem(host) == Stem(other) && PortOf(host) == PortOf(other)
    ensures EndpointOf(PlainUrl(host, path)) == EndpointOf(PlainUrl(other, path))
  {
  }

  /** Every mirror without a port has a second accepted spelling, with the colon of an empty port. */
  lemma MirrorHasTwoSpellings(net: Net, host: string, segments: seq<string>)
    requires IsMirrorHost(net, host) && ':' !in host && ArePathSegments(segments)
    ensures Https(host, PathOf(segments)) != Https(host + ":", PathOf(segments))
    ensures IsMirror(net, Https(host, PathOf(segments))) && IsMirror(net, Https(host + ":", PathOf(segments)))
    ensures EndpointOf(Parse(net, Https(host, PathOf(segments))).value) ==
      EndpointOf(Parse(net, Https(host + ":", PathOf(segments))).value)
  {
    EmptyPort(net, host);
    PrintedIsMirror(net, host, segments);
    PrintedIsMirror(net, host + ":", segments);
    SameEndpoint(host, host + ":", PathOf(segments));
    LongerHostDiffers(host, PathOf(segments));
  }

  // ---- The separator of artifact keys ----

  lemma PlainHoldsNoNul(s: string)
    requires ArePathChars(s)
    ensures '\0' !in s
  {
  }

  lemma SourceHoldsNoNul(net: Net, raw: string)
    requires Identify(net, raw).Some?
    ensures '\0' !in Print(Identify(net, raw).value)
  {
    IdentifiedIsIdentity(net, raw);
    PrintIsPlain(net, Identify(net, raw).value);
    PlainHoldsNoNul(Print(Identify(net, raw).value));
  }

  lemma MirrorHoldsNoNul(net: Net, raw: string)
    requires IsMirror(net, raw)
    ensures '\0' !in raw
  {
    assert !HasAny(raw, {'\\', '\0', '%'});
  }

  lemma TailHoldsNoNul(tail: string)
    requires '\0' !in Https(tail, "")
    ensures '\0' !in tail
  {
    assert forall i :: 0 <= i < |tail| ==> Https(tail, "")[i + 8] == tail[i];
  }

  lemma OciHoldsNoNul(raw: string)
    requires |raw| >= 6 && raw[..6] == "oci://" && '\0' !in Https(raw[6..], "")
    ensures '\0' !in raw
  {
    TailHoldsNoNul(raw[6..]);
    assert raw == "oci://" + raw[6..];
  }
}
