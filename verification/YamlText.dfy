/** The two-pass escape for YAML double-quoted scalars, and the scalar reader that undoes it. */
module YamlText {

  /** `strings.ReplaceAll` for a one-character pattern. */
  function ReplaceAll(s: string, c: char, with: string): string {
    if s == "" then "" else (if s[0] == c then with else [s[0]]) + ReplaceAll(s[1..], c, with)
  }

  /** `escapeYAMLDoubleQuoted`: backslashes first, then quotes. */
  function Escape(value: string): string {
    ReplaceAll(ReplaceAll(value, '\\', "\\\\"), '"', "\\\"")
  }

  function EscapeChar(c: char): string {
    if c == '\\' then "\\\\" else if c == '"' then "\\\"" else [c]
  }

  function EscapeOnePass(s: string): string {
    if s == "" then "" else EscapeChar(s[0]) + EscapeOnePass(s[1..])
  }

  lemma {:induction false} ReplaceAllDistributes(s: string, t: string, c: char, with: string)
    ensures ReplaceAll(s + t, c, with) == ReplaceAll(s, c, with) + ReplaceAll(t, c, with)
  {
    if s == "" {
      assert s + t == t;
    } else {
      assert (s + t)[1..] == s[1..] + t;
      ReplaceAllDistributes(s[1..], t, c, with);
    }
  }

  /** The second pass does not touch what the first pass wrote. */
  lemma {:induction false} EscapeIsOnePass(value: string)
    ensures Escape(value) == EscapeOnePass(value)
  {
    if value != "" {
      var head := if value[0] == '\\' then "\\\\" else [value[0]];
      var tail := ReplaceAll(value[1..], '\\', "\\\\");
      EscapeIsOnePass(value[1..]);
      ReplaceAllDistributes(head, tail, '"', "\\\"");
      assert ReplaceAll(head, '"', "\\\"") == EscapeChar(value[0]) by {
        if value[0] == '\\' {
          assert head[1..] == "\\" && head[1..][1..] == "";
        } else {
          assert head[1..] == "";
        }
      }
    }
  }

  // ---- Reading a scalar back ----

  /** A character that a double-quoted scalar may hold as it is (nb-json in section 5.1 of YAML 1.2.2). */
  predicate Printable(c: char) {
    c == '\t' || c >= ' '
  }

  datatype Scalar = Unreadable | Scalar(value: string, rest: string)

  /**
   * Read the body of a double-quoted scalar up to its closing quote (section 7.3.1 of YAML 1.2.2), with the
   * escapes of the backslash and the quote. Line breaks and control characters are not read.
   */
  function ReadScalar(text: string): Scalar {
    if text == "" || !Printable(text[0]) then Unreadable
    else if text[0] == '"' then Scalar("", text[1..])
    else if text[0] != '\\' then Prepend(text[0], ReadScalar(text[1..]))
    else if |text| > 1 && (text[1] == '\\' || text[1] == '"') then Prepend(text[1], ReadScalar(text[2..]))
    else Unreadable
  }

  function Prepend(c: char, s: Scalar): Scalar {
    match s
    case Unreadable => Unreadable
    case Scalar(value, rest) => Scalar([c] + value, rest)
  }

  predicate AllPrintable(s: string) {
    forall i :: 0 <= i < |s| ==> Printable(s[i])
  }

  /**
   * An escaped value between quotes reads back as the value, whatever follows it, exactly when the value has
   * no line break or control character. In particular no quote inside it closes the scalar early.
   */
  lemma {:induction false} EscapeRoundTrips(value: string, rest: string)
    ensures ReadScalar(EscapeOnePass(value) + "\"" + rest) == Scalar(value, rest) <==> AllPrintable(value)
  {
    var text := EscapeOnePass(value) + "\"" + rest;
    if value == "" {
      assert text[1..] == rest;
    } else {
      var tail := EscapeOnePass(value[1..]) + "\"" + rest;
      EscapeRoundTrips(value[1..], rest);
      assert text == EscapeChar(value[0]) + tail;
      assert text[|EscapeChar(value[0])|..] == tail;
      if Printable(value[0]) {
        assert ReadScalar(text) == Prepend(value[0], ReadScalar(tail));
        assert value == [value[0]] + value[1..];
      } else {
        assert ReadScalar(text) == Unreadable;
      }
    }
  }

  lemma EscapedValueReadsBack(value: string, rest: string)
    ensures ReadScalar(Escape(value) + "\"" + rest) == Scalar(value, rest) <==> AllPrintable(value)
  {
    EscapeIsOnePass(value);
    EscapeRoundTrips(value, rest);
  }

  /** Different values have different escapes. */
  lemma {:induction false} EscapeIsInjective(a: string, b: string)
    requires EscapeOnePass(a) == EscapeOnePass(b)
    ensures a == b
  {
    if a != "" && b != "" {
      var ea, eb := EscapeOnePass(a), EscapeOnePass(b);
      assert ea[0] == EscapeChar(a[0])[0] && eb[0] == EscapeChar(b[0])[0];
      if a[0] == '\\' || a[0] == '"' {
        assert ea[1] == a[0];
      }
      if b[0] == '\\' || b[0] == '"' {
        assert eb[1] == b[0];
      }
      assert a[0] == b[0];
      assert ea[|EscapeChar(a[0])|..] == EscapeOnePass(a[1..]);
      assert eb[|EscapeChar(b[0])|..] == EscapeOnePass(b[1..]);
      EscapeIsInjective(a[1..], b[1..]);
      assert a == [a[0]] + a[1..] && b == [b[0]] + b[1..];
    }
  }

  lemma EscapeIsInjectiveOnValues(a: string, b: string)
    requires Escape(a) == Escape(b)
    ensures a == b
  {
    EscapeIsOnePass(a);
    EscapeIsOnePass(b);
    EscapeIsInjective(a, b);
  }
}
