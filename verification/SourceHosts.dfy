/** Which host names are public, and which spellings of a host name are one. */
module SourceHosts {
  import opened Prelude
  import opened Text
  import opened Paths
  import opened SourceUrls
  import opened SourceIdentity

  // ---- Case ----

  predicate IsCapitalOf(u: char, l: char) {
    || (u == 'A' && l == 'a') || (u == 'B' && l == 'b') || (u == 'C' && l == 'c') || (u == 'D' && l == 'd')
    || (u == 'E' && l == 'e') || (u == 'F' && l == 'f') || (u == 'G' && l == 'g') || (u == 'H' && l == 'h')
    || (u == 'I' && l == 'i') || (u == 'J' && l == 'j') || (u == 'K' && l == 'k') || (u == 'L' && l == 'l')
    || (u == 'M' && l == 'm') || (u == 'N' && l == 'n') || (u == 'O' && l == 'o') || (u == 'P' && l == 'p')
    || (u == 'Q' && l == 'q') || (u == 'R' && l == 'r') || (u == 'S' && l == 's') || (u == 'T' && l == 't')
    || (u == 'U' && l == 'u') || (u == 'V' && l == 'v') || (u == 'W' && l == 'w') || (u == 'X' && l == 'x')
    || (u == 'Y' && l == 'y') || (u == 'Z' && l == 'z')
  }

  /** Equal up to ASCII case. */
  predicate IsSameLetter(a: char, b: char) {
    a == b || IsCapitalOf(a, b) || IsCapitalOf(b, a)
  }

  predicate AreSameLetters(a: string, b: string) {
    |a| == |b| && forall i :: 0 <= i < |a| ==> IsSameLetter(a[i], b[i])
  }

  predicate IsAscii(s: string) {
    forall i :: 0 <= i < |s| ==> (s[i] as int) < 0x80
  }

  lemma LowerOfCapital(u: char)
    requires (u as int) < 0x80
    ensures forall l :: IsCapitalOf(u, l) ==> Lower(u) == l && Lower(l) == l
    ensures Lower(u) == u || IsCapitalOf(u, Lower(u))
  {
  }

  lemma LowerMergesIff(a: char, b: char)
    requires (a as int) < 0x80 && (b as int) < 0x80
    ensures Lower(a) == Lower(b) <==> IsSameLetter(a, b)
  {
    LowerOfCapital(a);
    LowerOfCapital(b);
  }

  lemma LowerAllMergesIff(a: string, b: string)
    requires IsAscii(a) && IsAscii(b)
    ensures LowerAll(a) == LowerAll(b) <==> AreSameLetters(a, b)
  {
    if LowerAll(a) == LowerAll(b) {
      assert |a| == |LowerAll(a)| == |b|;
      forall i | 0 <= i < |a| ensures IsSameLetter(a[i], b[i]) {
        assert LowerAll(a)[i] == LowerAll(b)[i];
        LowerMergesIff(a[i], b[i]);
      }
    }
    if AreSameLetters(a, b) {
      forall i | 0 <= i < |a| ensures LowerAll(a)[i] == LowerAll(b)[i] { LowerMergesIff(a[i], b[i]); }
    }
  }

  lemma SpelledForm(net: Net, scheme: string, name: string, port: Option<string>, path: string)
    requires LowerScheme(scheme) == "https" && IsName(name) && AreDigits(PortDigits(port))
    requires IsTail(path) && ArePathChars(path) && Identify(net, Spell(scheme, name, port, path)).Some?
    ensures Identify(net, Spell(scheme, name, port, path)) ==
      Some(Identity(LowerAll(name), DropDefault(PortDigits(port)), Segments(path)))
  {
    SpelledIdentity(net, scheme, name, port, path);
  }

  /** Two accepted URLs that differ in an ASCII host name only get one form iff the names are equal up to case. */
  lemma HostsMergeIff(net: Net, scheme: string, a: string, b: string, port: Option<string>, path: string)
    requires LowerScheme(scheme) == "https" && AreDigits(PortDigits(port)) && IsTail(path) && ArePathChars(path)
    requires IsName(a) && IsName(b) && IsAscii(a) && IsAscii(b)
    requires Identify(net, Spell(scheme, a, port, path)).Some? && Identify(net, Spell(scheme, b, port, path)).Some?
    ensures NormalizeSource(net, Spell(scheme, a, port, path)) == NormalizeSource(net, Spell(scheme, b, port, path)) <==>
      AreSameLetters(a, b)
  {
    SpelledForm(net, scheme, a, port, path);
    SpelledForm(net, scheme, b, port, path);
    NormalFormsAreIdentities(net, Spell(scheme, a, port, path), Spell(scheme, b, port, path));
    LowerAllMergesIff(a, b);
  }

  // ---- Public names ----

  /** A label: 1 to 63 lower-case letters, digits and inner hyphens. */
  predicate IsDnsLabel(s: string) {
    && 1 <= |s| <= 63 && s[0] != '-' && s[|s| - 1] != '-'
    && forall i :: 0 <= i < |s| ==> 'a' <= s[i] <= 'z' || '0' <= s[i] <= '9' || s[i] == '-'
  }

  lemma LabelIff(s: string)
    ensures IsLabel(s) <==> IsDnsLabel(s)
  {
  }

  lemma HostnameIff(labels: seq<string>)
    requires labels != [] && forall i :: 0 <= i < |labels| ==> '.' !in labels[i]
    ensures IsHostname(Join(labels, '.')) <==> |labels| >= 2 && forall i :: 0 <= i < |labels| ==> IsDnsLabel(labels[i])
  {
    SplitOfJoin(labels, '.');
    forall i | 0 <= i < |labels| ensures IsLabel(labels[i]) <==> IsDnsLabel(labels[i]) { LabelIff(labels[i]); }
  }

  lemma JoinStarts(labels: seq<string>)
    requires |labels| >= 2
    ensures Join(labels, '.') == labels[0] + ['.'] + Join(labels[1..], '.') && '.' in Join(labels, '.')
  {
    assert Join(labels, '.')[|labels[0]|] == '.';
  }

  /** The last dot of a joined name stands before its last label. */
  lemma {:induction false} LastLabel(labels: seq<string>) returns (stem: string)
    requires |labels| >= 2
    ensures Join(labels, '.') == stem + ['.'] + labels[|labels| - 1]
  {
    JoinStarts(labels);
    if |labels| == 2 {
      stem := labels[0];
      assert labels[1..] == [labels[1]];
    } else {
      var rest := LastLabel(labels[1..]);
      stem := labels[0] + ['.'] + rest;
      assert labels[0] + ['.'] + (rest + ['.'] + labels[|labels| - 1]) == stem + ['.'] + labels[|labels| - 1];
    }
  }

  /** A text with a last dot ends in a dot and a name iff the name is what follows that dot. */
  lemma EndsAfterDot(stem: string, last: string, name: string)
    requires '.' !in last && '.' !in name
    ensures EndsWith(stem + ['.'] + last, ['.'] + name) <==> last == name
  {
    var s := stem + ['.'] + last;
    LastIndexIsLast(stem, '.', last);
    if EndsWith(s, ['.'] + name) {
      var before := s[..|s| - |name| - 1];
      assert s == before + (['.'] + name) == before + ['.'] + name;
      LastIndexIsLast(before, '.', name);
      assert s[|stem| + 1..] == last && s[|before| + 1..] == name;
    }
    if last == name {
      assert s[|s| - |name| - 1..] == ['.'] + name;
    }
  }

  lemma EndsInLabel(labels: seq<string>, name: string)
    requires |labels| >= 2 && '.' !in labels[|labels| - 1] && '.' !in name
    ensures EndsWith(Join(labels, '.'), ['.'] + name) <==> labels[|labels| - 1] == name
  {
    var stem := LastLabel(labels);
    EndsAfterDot(stem, labels[|labels| - 1], name);
  }

  lemma NotLocalhost(s: string)
    requires '.' in s
    ensures s != "localhost"
  {
  }

  lemma DottedNames()
    ensures ".local" == ['.'] + "local" && ".internal" == ['.'] + "internal"
    ensures '.' !in "local" && '.' !in "internal"
  {
  }

  /** A public name is two or more labels joined by dots, no address, and under neither `local` nor `internal`. */
  lemma PublicHostIff(net: Net, labels: seq<string>)
    requires labels != [] && forall i :: 0 <= i < |labels| ==> '.' !in labels[i]
    ensures IsPublicHost(net, Join(labels, '.')) <==>
      && !net.isIp(Join(labels, '.')) && |labels| >= 2 && (forall i :: 0 <= i < |labels| ==> IsDnsLabel(labels[i]))
      && labels[|labels| - 1] != "local" && labels[|labels| - 1] != "internal"
  {
    HostnameIff(labels);
    DottedNames();
    if |labels| >= 2 {
      JoinStarts(labels);
      NotLocalhost(Join(labels, '.'));
      EndsInLabel(labels, "local");
      EndsInLabel(labels, "internal");
    }
  }

  // ---- Ports ----

  lemma {:induction false} ValueOfItoa(n: nat)
    ensures AreDigits(Itoa(n)) && Value(Itoa(n)) == n
  {
    var s := Itoa(n);
    if n >= 10 {
      ValueOfItoa(n / 10);
      assert s[..|s| - 1] == Itoa(n / 10);
    } else {
      assert s[..0] == "";
    }
  }

  /** The decimal form of a number is a port iff the number is from 1 to 65535. */
  lemma PortIff(n: nat)
    ensures IsPort(Itoa(n)) <==> 1 <= n <= 65535
  {
    ValueOfItoa(n);
  }
}
