/**
 * The canonical identity of a Helm source URL: `net/url` as far as the normalisers look at it, the public-repository
 * normaliser, and the two mirror normalisers.
 */
module SourceUrls {
  import opened Prelude
  import opened Text
  import opened Paths

  /** `net.ParseIP(s) != nil`. */
  datatype Net = Net(isIp: string -> bool)

  // ---- Characters ----

  predicate IsDigit(c: char) { '0' <= c <= '9' }

  predicate AreDigits(s: string) { forall i :: 0 <= i < |s| ==> IsDigit(s[i]) }

  /**
   * `unicode.ToLower` where it matters: letters that are not listed have lower-case forms outside ASCII, which no
   * accepted host can hold.
   */
  function Lower(c: char): char {
    if 'A' <= c <= 'Z' then c - 'A' + 'a'
    else if c == '\U{212A}' then 'k'
    else if c == '\U{0130}' then 'i'
    else c
  }

  function LowerAll(s: string): string {
    seq(|s|, i requires 0 <= i < |s| => Lower(s[i]))
  }

  predicate IsHostChar(c: char) { 'a' <= c <= 'z' || IsDigit(c) || c == '-' || c == '.' }

  /** Characters `net/url` reads in a host; a percent sign starts an escape, which no caller lets through. */
  predicate IsAuthorityChar(c: char) {
    || (c as int) >= 0x80 || 'a' <= c <= 'z' || 'A' <= c <= '[' || '0' <= c <= '>' || '&' <= c <= '.'
    || c == '!' || c == '"' || c == '$' || c == ']' || c == '_' || c == '~'
  }

  /** Characters that `net/url` prints in a path without escaping them. */
  predicate IsPathChar(c: char) {
    'a' <= c <= 'z' || '@' <= c <= 'Z' || '+' <= c <= ';' || c == '$' || c == '&' || c == '=' || c == '_' || c == '~'
  }

  predicate ArePathChars(s: string) { forall i :: 0 <= i < |s| ==> IsPathChar(s[i]) }

  predicate HasDoubleSlash(s: string) { exists i :: 0 < i < |s| && s[i - 1] == '/' && s[i] == '/' }

  // ---- Hosts and ports ----

  predicate IsLabel(s: string) {
    && 1 <= |s| <= 63 && s[0] != '-' && s[|s| - 1] != '-'
    && forall i :: 0 <= i < |s| ==> IsHostChar(s[i]) && s[i] != '.'
  }

  predicate IsHostname(s: string) {
    var labels := Split(s, '.');
    |labels| >= 2 && forall i :: 0 <= i < |labels| ==> IsLabel(labels[i])
  }

  predicate EndsWith(s: string, tail: string) {
    |tail| <= |s| && s[|s| - |tail|..] == tail
  }

  predicate IsPublicHost(net: Net, s: string) {
    && !net.isIp(s) && IsHostname(s)
    && s != "localhost" && !EndsWith(s, ".local") && !EndsWith(s, ".internal")
  }

  /** `strconv.Atoi` on digits, and `strconv.Itoa`. */
  function Value(digits: string): nat
    requires AreDigits(digits)
  {
    if digits == "" then 0 else Value(digits[..|digits| - 1]) * 10 + (digits[|digits| - 1] - '0') as nat
  }

  function Itoa(n: nat): string {
    if n < 10 then ['0' + n as char] else Itoa(n / 10) + ['0' + (n % 10) as char]
  }

  predicate IsPort(port: string) {
    AreDigits(port) && 1 <= Value(port) <= 65535
  }

  /** The last colon separates the port, if only digits follow it. */
  predicate HasPort(host: string) {
    var colon := LastIndexOf(host, ':');
    colon >= 0 && AreDigits(host[colon + 1..])
  }

  /** `URL.Port`. */
  function PortOf(host: string): (port: string)
    ensures AreDigits(port)
  {
    if HasPort(host) then host[LastIndexOf(host, ':') + 1..] else ""
  }

  /** The host without its port. */
  function Stem(host: string): string {
    if HasPort(host) then host[..LastIndexOf(host, ':')] else host
  }

  /** `URL.Hostname`. */
  function NameOf(host: string): string {
    if IsBracketed(Stem(host)) then Stem(host)[1..|Stem(host)| - 1] else Stem(host)
  }

  predicate IsBracketed(name: string) {
    |name| >= 2 && name[0] == '[' && name[|name| - 1] == ']'
  }

  predicate HasHostChars(host: string) {
    forall i :: 0 <= i < |host| ==> IsAuthorityChar(host[i])
  }

  predicate StartsWithBracket(host: string) {
    host != "" && host[0] == '['
  }

  /** An address in brackets with an optional port. */
  predicate IsAddressHost(net: Net, host: string) {
    var close := LastIndexOf(host, ']');
    && close >= 1 && ':' in host[1..close] && net.isIp(host[1..close])
    && (close + 1 == |host| || (host[close + 1] == ':' && AreDigits(host[close + 2..])))
  }

  /** What `url.Parse` accepts as host: an address in brackets, or a name, each with an optional port. */
  predicate IsHost(net: Net, host: string) {
    HasHostChars(host) && if StartsWithBracket(host) then IsAddressHost(net, host) else ':' in host ==> HasPort(host)
  }

  // ---- Parsing ----

  datatype Url = Url(host: string, path: string, user: bool, query: bool, fragment: bool)

  /**
   * `url.Parse`, with everything but an `https` URL that has an authority mapped to None. Control characters and
   * undecodable parts are an error there; here they stay in a part that both normalisers refuse.
   */
  function Parse(net: Net, raw: string): Option<Url> {
    var text := Before(raw, IndexOf(raw, '#'));
    if |text| < 8 || LowerScheme(text[..5]) != "https" || text[5..8] != "://" then None
    else
      var rest := Before(text[8..], IndexOf(text[8..], '?'));
      ParseRest(net, rest, |rest| < |text[8..]|, |text| + 1 < |raw|)
  }

  /** The text before a found position, or all of it. */
  function Before(s: string, i: int): string
    requires i < |s| || i == -1
  {
    if i < 0 then s else s[..i]
  }

  /** The authority ends at the first slash; its last at sign ends the user information. */
  function ParseRest(net: Net, rest: string, query: bool, fragment: bool): Option<Url> {
    var authority := Before(rest, IndexOf(rest, '/'));
    var at := LastIndexOf(authority, '@');
    var host := authority[at + 1..];
    if !IsHost(net, host) then None
    else Some(Url(host, rest[|authority|..], at >= 0, query, fragment))
  }

  /** Schemes are ASCII, so only ASCII letters have a lower case. */
  function LowerScheme(s: string): string {
    seq(|s|, i requires 0 <= i < |s| => if 'A' <= s[i] <= 'Z' then s[i] - 'A' + 'a' else s[i])
  }

  // ---- The public-repository normaliser ----

  datatype Identity = Identity(hostname: string, port: string, segments: seq<string>)

  function Authority(id: Identity): string {
    if id.port == "" then id.hostname else id.hostname + ":" + id.port
  }

  function Https(host: string, path: string): string {
    "https" + "://" + (host + path)
  }

  function Print(id: Identity): string {
    Https(Authority(id), PathOf(id.segments))
  }

  function DropDefault(port: string): string {
    if port == "443" then "" else port
  }

  /** The identity of an accepted URL. */
  function Identify(net: Net, raw: string): Option<Identity> {
    if raw == "" || Size(raw) > 2048 || TrimSpace(raw) != raw then None
    else
      match Parse(net, raw)
      case None => None
      case Some(url) => IdentifyUrl(net, url)
  }

  function IdentifyUrl(net: Net, url: Url): Option<Identity> {
    var hostname := LowerAll(NameOf(url.host));
    var port := PortOf(url.host);
    if url.host == "" || url.user || url.query || url.fragment then None
    else if !IsPublicHost(net, hostname) then None
    else if port != "" && !IsPort(port) then None
    else if !ArePathChars(url.path) || HasDoubleSlash(url.path) then None
    else Some(Identity(hostname, DropDefault(port), Segments(url.path)))
  }

  function NormalizeSource(net: Net, raw: string): Option<string> {
    match Identify(net, raw)
    case None => None
    case Some(id) => Some(Print(id))
  }

  // ---- The mirror normalisers ----

  function MirrorHost(host: string): string {
    var low := LowerAll(host);
    if PortOf(low) != "443" then low
    else if ':' in NameOf(low) then "[" + NameOf(low) + "]"
    else NameOf(low)
  }

  predicate IsMirrorPort(port: string)
    requires AreDigits(port)
  {
    port != "" ==> IsPort(port) && Itoa(Value(port)) == port
  }

  predicate IsMirrorUrl(url: Url) {
    && NameOf(url.host) != "" && !EndsWith(NameOf(url.host), ".")
    && !url.user && !url.query && !url.fragment && ArePathChars(url.path) && !HasDoubleSlash(url.path)
    && IsMirrorPort(PortOf(MirrorHost(url.host)))
  }

  /** `URL.String` on the rewritten parts; a host outside ASCII would be printed with percent signs. */
  function MirrorText(url: Url): string {
    Https(MirrorHost(url.host), PathOf(Segments(url.path)))
  }

  predicate IsMirrorSpelling(raw: string, url: Url) {
    && IsMirrorUrl(url) && !HasAny(raw, {'\\', '\0', '%'})
    && (forall i :: 0 <= i < |url.host| ==> (url.host[i] as int) < 0x80)
    && MirrorText(url) == raw
  }

  predicate IsMirror(net: Net, raw: string) {
    match Parse(net, raw)
    case None => false
    case Some(url) => IsMirrorSpelling(raw, url)
  }

  function NormalizeMirror(net: Net, raw: string): Option<string> {
    if IsMirror(net, raw) then Some(raw) else None
  }

  function NormalizeOci(net: Net, raw: string): Option<string> {
    if |raw| < 6 || raw[..6] != "oci://" then None
    else
      var web := Https(raw[6..], "");
      if IsMirror(net, web) && Parse(net, web).value.path != "" then Some(raw) else None
  }
}
