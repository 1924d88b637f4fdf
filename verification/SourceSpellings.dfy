/** Exactly which texts the public-repository normaliser accepts. */
module SourceSpellings {
  import opened Prelude
  import opened Text
  import opened Paths
  import opened SourceUrls
  import opened SourceIdentity

  // ---- Characters of a path ----

  /** Letters, digits and the marks that need no escape. */
  lemma PathCharIff(c: char)
    ensures IsPathChar(c) <==>
      || 'a' <= c <= 'z' || 'A' <= c <= 'Z' || '0' <= c <= '9'
      || c == '-' || c == '_' || c == '.' || c == '~' || c == '$' || c == '&' || c == '+' || c == ',' || c == '/'
      || c == ':' || c == ';' || c == '=' || c == '@'
  {
  }

  /** Two slashes in a row are refused, wherever they stand. */
  lemma DoubleSlashRefused(net: Net, scheme: string, name: string, port: Option<string>, before: string, after: string)
    requires LowerScheme(scheme) == "https" && IsName(name) && AreDigits(PortDigits(port))
    requires IsTail(before + "//" + after) && ArePathChars(before + "//" + after)
    ensures Identify(net, Spell(scheme, name, port, before + "//" + after)).None?
  {
    var path := before + "//" + after;
    assert path[|before|] == '/' && path[|before| + 1] == '/';
    assert HasDoubleSlash(path) by { assert path[|before| + 1 - 1] == '/'; }
    SpelledIdentity(net, scheme, name, port, path);
  }

  // ---- An accepted text is a spelling ----

  predicate IsSpelling(text: string, scheme: string, name: string, port: Option<string>, path: string) {
    && LowerScheme(scheme) == "https" && IsName(name) && AreDigits(PortDigits(port)) && IsTail(path) && ArePathChars(path)
    && text == Spell(scheme, name, port, path)
  }

  lemma LowerKeepsKind(s: string)
    requires IsHostname(LowerAll(s))
    ensures IsName(s) && !IsBracketed(s)
  {
    HostnameIsName(LowerAll(s));
    forall i | 0 <= i < |s| ensures IsAuthorityChar(s[i]) && s[i] != ':' && s[i] != '[' {
      HostnameChars(LowerAll(s), i);
      assert LowerAll(s)[i] == Lower(s[i]);
    }
    assert |s| == |LowerAll(s)|;
  }

  /** The port as it is written: absent, or what follows the colon. */
  function WrittenPort(host: string): Option<string> {
    if HasPort(host) then Some(PortOf(host)) else None
  }

  lemma HostIsWritten(host: string)
    ensures host == Stem(host) + PortText(WrittenPort(host)) && PortDigits(WrittenPort(host)) == PortOf(host)
  {
    if HasPort(host) {
      var colon := LastIndexOf(host, ':');
      assert host == host[..colon] + ":" + host[colon + 1..];
    } else {
      assert host + "" == host;
    }
  }

  /** Brackets keep the colon of their address, so a public host has none. */
  lemma PublicStem(net: Net, host: string)
    requires IsHost(net, host) && IsHostname(LowerAll(NameOf(host)))
    ensures IsName(Stem(host)) && NameOf(host) == Stem(host)
  {
    LowerKeepsKind(NameOf(host));
    if IsBracketed(Stem(host)) { BracketedHoldsColon(net, host); }
  }

  lemma BracketedHoldsColon(net: Net, host: string)
    requires IsHost(net, host) && IsBracketed(Stem(host))
    ensures ':' in NameOf(host)
  {
    var stem := Stem(host);
    assert host[0] == stem[0] == '[';
    var close := LastIndexOf(host, ']');
    StemEndsAtBracket(net, host);
    assert NameOf(host) == host[1..close];
  }

  lemma StemEndsAtBracket(net: Net, host: string)
    requires IsHost(net, host) && StartsWithBracket(host) && IsBracketed(Stem(host))
    ensures |Stem(host)| == LastIndexOf(host, ']') + 1
  {
    var stem, close := Stem(host), LastIndexOf(host, ']');
    assert stem == host[..|stem|];
    assert host[|stem| - 1] == ']';
    assert |stem| - 1 <= close;
    if close + 1 < |host| {
      assert host[close + 1] == ':' && AreDigits(host[close + 2..]);
      DigitsAfterColon(host, close + 1);
    }
  }

  lemma DigitsAfterColon(host: string, k: nat)
    requires k < |host| && host[k] == ':' && AreDigits(host[k + 1..])
    ensures HasPort(host) && Stem(host) == host[..k]
  {
    assert ':' !in host[k + 1..];
    LastIndexIsLast(host[..k], ':', host[k + 1..]);
    assert host[..k] + [':'] + host[k + 1..] == host;
  }

  lemma RestIsWritten(net: Net, rest: string, query: bool, fragment: bool)
    requires ParseRest(net, rest, query, fragment).Some? && !ParseRest(net, rest, query, fragment).value.user
    ensures
      var url := ParseRest(net, rest, query, fragment).value;
      rest == url.host + url.path && IsHost(net, url.host)
  {
    var authority := Before(rest, IndexOf(rest, '/'));
    assert authority == rest[..|authority|];
    assert authority[0..] == authority;
  }

  lemma FragmentIsCut(raw: string)
    ensures
      var text := Before(raw, IndexOf(raw, '#'));
      '#' !in text && (|text| + 1 >= |raw| ==> raw == text || raw == text + "#")
  {
    var text := Before(raw, IndexOf(raw, '#'));
    if '#' in raw {
      assert raw == text + "#" + raw[|text| + 1..];
    }
  }

  lemma SchemeIsCut(text: string)
    requires |text| >= 8 && text[5..8] == "://"
    ensures text == text[..5] + "://" + text[8..]
  {
    assert text == text[..5] + text[5..8] + text[8..];
  }

  /** The text of a parsed URL without query or user information, but for an empty fragment. */
  lemma TextIsWritten(net: Net, raw: string)
    requires Parse(net, raw).Some?
    requires var url := Parse(net, raw).value; !url.user && !url.query && !url.fragment
    ensures
      var url := Parse(net, raw).value;
      var text := Before(raw, IndexOf(raw, '#'));
      && |text| >= 8 && LowerScheme(text[..5]) == "https" && text == text[..5] + "://" + (url.host + url.path)
      && (raw == text || raw == text + "#") && '#' !in text && IsHost(net, url.host)
  {
    var text := Before(raw, IndexOf(raw, '#'));
    var rest := Before(text[8..], IndexOf(text[8..], '?'));
    RestIsWritten(net, rest, |rest| < |text[8..]|, |text| + 1 < |raw|);
    assert rest == text[8..];
    SchemeIsCut(text);
    FragmentIsCut(raw);
  }

  lemma UrlIsWritten(net: Net, url: Url)
    requires IdentifyUrl(net, url).Some? && IsHost(net, url.host)
    ensures IsName(Stem(url.host)) && HasIdentity(net, Stem(url.host), PortOf(url.host), url.path) && ArePathChars(url.path)
    ensures !url.user && !url.query && !url.fragment
  {
    PublicStem(net, url.host);
  }

  /** Every accepted text is a spelling, or one followed by the mark of an empty fragment: no query, no user, no fragment. */
  lemma AcceptedIsSpelling(net: Net, raw: string)
    requires Identify(net, raw).Some?
    ensures exists text, scheme, name, port, path ::
      (raw == text || raw == text + "#") && IsSpelling(text, scheme, name, port, path)
      && HasIdentity(net, name, PortDigits(port), path)
  {
    var url := Parse(net, raw).value;
    ParsedHost(net, raw);
    UrlIsWritten(net, url);
    TextIsWritten(net, raw);
    ParsedFits(net, raw);
    HostIsWritten(url.host);
    var text := Before(raw, IndexOf(raw, '#'));
    assert text == Spell(text[..5], Stem(url.host), WrittenPort(url.host), url.path);
    assert IsSpelling(text, text[..5], Stem(url.host), WrittenPort(url.host), url.path);
  }

  lemma ParsedHost(net: Net, raw: string)
    requires Parse(net, raw).Some?
    ensures IsHost(net, Parse(net, raw).value.host)
  {
  }

  lemma EmptyFragment(net: Net, text: string)
    requires '#' !in text
    ensures Parse(net, text + "#") == Parse(net, text)
  {
    IndexIsFirst(text, '#', "");
    assert text + ['#'] + "" == text + "#";
    assert Before(text + "#", IndexOf(text + "#", '#')) == text;
    assert Before(text, IndexOf(text, '#')) == text;
  }

  lemma SpellingHasNoHash(net: Net, text: string, scheme: string, name: string, port: Option<string>, path: string)
    requires IsSpelling(text, scheme, name, port, path)
    ensures '#' !in text
  {
    HostSpelledIsHost(net, name, port);
    DelimitersAreAbsent(net, name + PortText(port), path);
    SpelledHasNoHash(scheme, name + PortText(port) + path);
  }

  lemma SpellingIsParsed(net: Net, text: string, scheme: string, name: string, port: Option<string>, path: string)
    requires IsSpelling(text, scheme, name, port, path)
    ensures Parse(net, text) == Some(Url(name + PortText(port), path, false, false, false))
  {
    HostSpelledIsHost(net, name, port);
    ParseSpelled(net, scheme, name + PortText(port), path);
  }

  lemma SpellingIsAccepted(net: Net, raw: string, text: string, scheme: string, name: string, port: Option<string>,
                           path: string)
    requires (raw == text || raw == text + "#") && IsSpelling(text, scheme, name, port, path)
    requires HasIdentity(net, name, PortDigits(port), path) && IsBounded(raw)
    ensures Identify(net, raw).Some?
  {
    SpellingIsParsed(net, text, scheme, name, port, path);
    SpelledUrlIdentity(net, name, port, path);
    assert Parse(net, raw) == Parse(net, text) by {
      SpellingHasNoHash(net, text, scheme, name, port, path);
      EmptyFragment(net, text);
    }
  }

  /**
   * A text is accepted iff it is trimmed, at most 2048 bytes long, and spells an `https` scheme, a public host, an
   * optional port from 1 to 65535 and a path of plain characters without double slashes, with at most an empty fragment.
   */
  lemma AcceptedIff(net: Net, raw: string)
    ensures Identify(net, raw).Some? <==>
      exists text, scheme, name, port, path ::
        (raw == text || raw == text + "#") && IsSpelling(text, scheme, name, port, path)
        && HasIdentity(net, name, PortDigits(port), path) && IsBounded(raw)
  {
    if Identify(net, raw).Some? {
      AcceptedIsSpelling(net, raw);
    }
    if text, scheme, name, port, path :|
        (raw == text || raw == text + "#") && IsSpelling(text, scheme, name, port, path)
        && HasIdentity(net, name, PortDigits(port), path) && IsBounded(raw) {
      SpellingIsAccepted(net, raw, text, scheme, name, port, path);
    }
  }
}
