/** The string functions of the Go standard library that the modelled code calls. */
module Text {

  /** `unicode.IsSpace`. */
  predicate IsSpace(c: char) {
    || '\t' <= c <= '\r' || c == ' ' || c == '\U{0085}' || c == '\U{00A0}' || c == '\U{1680}'
    || '\U{2000}' <= c <= '\U{200A}' || c == '\U{2028}' || c == '\U{2029}' || c == '\U{202F}' || c == '\U{205F}'
    || c == '\U{3000}'
  }

  function TrimLeft(s: string): string {
    if s != "" && IsSpace(s[0]) then TrimLeft(s[1..]) else s
  }

  function TrimRight(s: string): string {
    if s != "" && IsSpace(s[|s| - 1]) then TrimRight(s[..|s| - 1]) else s
  }

  /** `strings.TrimSpace`. */
  function TrimSpace(s: string): string {
    TrimRight(TrimLeft(s))
  }

  /** `strings.Split` on a one-character separator: the pieces between separators, at least one. */
  function Split(s: string, sep: char): (r: seq<string>)
    ensures |r| >= 1
  {
    if s == "" then [""]
    else if s[0] == sep then [""] + Split(s[1..], sep)
    else
      var rest := Split(s[1..], sep);
      [[s[0]] + rest[0]] + rest[1..]
  }

  /** `strings.Join` with a one-character separator. */
  function Join(parts: seq<string>, sep: char): string {
    if parts == [] then ""
    else if |parts| == 1 then parts[0]
    else parts[0] + [sep] + Join(parts[1..], sep)
  }

  /** `len` of a Go string: its size in UTF-8. */
  function Size(s: string): nat {
    if s == "" then 0 else CharSize(s[0]) + Size(s[1..])
  }

  function CharSize(c: char): nat {
    var n := c as int;
    if n < 0x80 then 1 else if n < 0x800 then 2 else if n < 0x1_0000 then 3 else 4
  }

  predicate HasAny(s: string, cs: set<char>) {
    exists i :: 0 <= i < |s| && s[i] in cs
  }

  predicate IsFirstAt(s: string, c: char, i: int) {
    0 <= i < |s| && s[i] == c && c !in s[..i]
  }

  predicate IsLastAt(s: string, c: char, i: int) {
    0 <= i < |s| && s[i] == c && c !in s[i + 1..]
  }

  lemma {:induction false} FirstExists(s: string, c: char) returns (i: nat)
    requires c in s
    ensures IsFirstAt(s, c, i)
  {
    if s[0] == c {
      i := 0;
    } else {
      i := FirstExists(s[1..], c);
      assert s[..i + 1] == [s[0]] + s[1..][..i];
      i := i + 1;
    }
  }

  lemma {:induction false} LastExists(s: string, c: char) returns (i: nat)
    requires c in s
    ensures IsLastAt(s, c, i)
  {
    var n := |s| - 1;
    if s[n] == c {
      i := n;
    } else {
      i := LastExists(s[..n], c);
      assert s[i + 1..] == s[..n][i + 1..] + [s[n]];
    }
  }

  lemma OnlyOneFirst(s: string, c: char)
    ensures forall i, j :: IsFirstAt(s, c, i) && IsFirstAt(s, c, j) ==> i == j
  {
    forall i, j | IsFirstAt(s, c, i) && IsFirstAt(s, c, j) ensures i == j { FirstIsUnique(s, c, i, j); }
  }

  lemma FirstIsUnique(s: string, c: char, i: int, j: int)
    requires IsFirstAt(s, c, i) && IsFirstAt(s, c, j)
    ensures i == j
  {
    assert forall k :: 0 <= k < i ==> s[k] in s[..i];
    assert forall k :: 0 <= k < j ==> s[k] in s[..j];
  }

  lemma OnlyOneLast(s: string, c: char)
    ensures forall i, j :: IsLastAt(s, c, i) && IsLastAt(s, c, j) ==> i == j
  {
    forall i, j | IsLastAt(s, c, i) && IsLastAt(s, c, j) ensures i == j { LastIsUnique(s, c, i, j); }
  }

  lemma LastIsUnique(s: string, c: char, i: int, j: int)
    requires IsLastAt(s, c, i) && IsLastAt(s, c, j)
    ensures i == j
  {
    assert forall k :: i < k < |s| ==> s[k] in s[i + 1..];
    assert forall k :: j < k < |s| ==> s[k] in s[j + 1..];
  }

  /** `strings.IndexByte`: the first position of `c`, or -1. */
  function IndexOf(s: string, c: char): (i: int)
    ensures i == -1 <==> c !in s
    ensures c in s ==> IsFirstAt(s, c, i)
  {
    if c !in s then -1 else
      assert exists i :: IsFirstAt(s, c, i) by { var i := FirstExists(s, c); }
      assert forall i, j :: IsFirstAt(s, c, i) && IsFirstAt(s, c, j) ==> i == j by { OnlyOneFirst(s, c); }
      var i :| IsFirstAt(s, c, i); i
  }

  /** `strings.LastIndexByte`: the last position of `c`, or -1. */
  function LastIndexOf(s: string, c: char): (i: int)
    ensures i == -1 <==> c !in s
    ensures c in s ==> IsLastAt(s, c, i)
  {
    if c !in s then -1 else
      assert exists i :: IsLastAt(s, c, i) by { var i := LastExists(s, c); }
      assert forall i, j :: IsLastAt(s, c, i) && IsLastAt(s, c, j) ==> i == j by { OnlyOneLast(s, c); }
      var i :| IsLastAt(s, c, i); i
  }

  /** A separator with none before it is the first one; with none after it, the last. */
  lemma IndexIsFirst(a: string, c: char, b: string)
    requires c !in a
    ensures IndexOf(a + [c] + b, c) == |a|
  {
    var s := a + [c] + b;
    assert s[|a|] == c && s[..|a|] == a;
    FirstIsUnique(s, c, IndexOf(s, c), |a|);
  }

  lemma LastIndexIsLast(a: string, c: char, b: string)
    requires c !in b
    ensures LastIndexOf(a + [c] + b, c) == |a|
  {
    var s := a + [c] + b;
    assert s[|a|] == c && s[|a| + 1..] == b;
    LastIsUnique(s, c, LastIndexOf(s, c), |a|);
  }

  // ---- Trimming ----

  predicate IsTrimmed(s: string) {
    s == "" || (!IsSpace(s[0]) && !IsSpace(s[|s| - 1]))
  }

  lemma {:induction false} TrimLeftTrims(s: string)
    ensures TrimLeft(s) == "" || !IsSpace(TrimLeft(s)[0])
    ensures forall i :: 0 <= i < |TrimLeft(s)| ==> TrimLeft(s)[i] in s
  {
    if s != "" && IsSpace(s[0]) {
      TrimLeftTrims(s[1..]);
    }
  }

  lemma {:induction false} TrimRightTrims(s: string)
    ensures TrimRight(s) == "" || !IsSpace(TrimRight(s)[|TrimRight(s)| - 1])
    ensures TrimRight(s) <= s
  {
    if s != "" && IsSpace(s[|s| - 1]) {
      TrimRightTrims(s[..|s| - 1]);
    }
  }

  lemma TrimSpaceTrims(s: string)
    ensures IsTrimmed(TrimSpace(s))
    ensures forall i :: 0 <= i < |TrimSpace(s)| ==> TrimSpace(s)[i] in s
  {
    TrimLeftTrims(s);
    TrimRightTrims(TrimLeft(s));
  }

  lemma TrimmedStays(s: string)
    requires IsTrimmed(s)
    ensures TrimSpace(s) == s
  {
  }

  // ---- Split and join ----

  lemma {:induction false} SplitOfPlain(s: string, sep: char)
    requires sep !in s
    ensures Split(s, sep) == [s]
  {
    if s != "" {
      SplitOfPlain(s[1..], sep);
      assert [s[0]] + s[1..] == s;
    }
  }

  lemma {:induction false} SplitAtSeparator(s: string, t: string, sep: char)
    requires sep !in s
    ensures Split(s + [sep] + t, sep) == [s] + Split(t, sep)
  {
    var whole := s + [sep] + t;
    if s == "" {
      assert whole[1..] == t;
    } else {
      assert whole[1..] == s[1..] + [sep] + t;
      SplitAtSeparator(s[1..], t, sep);
      assert [s[0]] + s[1..] == s;
    }
  }

  /** Joining and splitting again gives the parts back. */
  lemma {:induction false} SplitOfJoin(parts: seq<string>, sep: char)
    requires parts != [] && forall i :: 0 <= i < |parts| ==> sep !in parts[i]
    ensures Split(Join(parts, sep), sep) == parts
  {
    if |parts| == 1 {
      SplitOfPlain(parts[0], sep);
    } else {
      SplitOfJoin(parts[1..], sep);
      SplitAtSeparator(parts[0], Join(parts[1..], sep), sep);
    }
  }

  /** A separator anywhere cuts the pieces in two groups. */
  lemma {:induction false} SplitConcat(s: string, t: string, sep: char)
    ensures Split(s + [sep] + t, sep) == Split(s, sep) + Split(t, sep)
  {
    var whole := s + [sep] + t;
    if s == "" {
      assert whole[1..] == t;
    } else {
      assert whole[1..] == s[1..] + [sep] + t;
      SplitConcat(s[1..], t, sep);
    }
  }

  lemma {:induction false} SplitCovers(s: string, sep: char, i: nat)
    requires i < |s| && s[i] != sep
    ensures exists j :: 0 <= j < |Split(s, sep)| && s[i] in Split(s, sep)[j]
  {
    var rest := Split(s[1..], sep);
    if i == 0 {
      assert s[0] in Split(s, sep)[0];
    } else {
      SplitCovers(s[1..], sep, i - 1);
      var j :| 0 <= j < |rest| && s[i] in rest[j];
      if s[0] == sep {
        assert s[i] in Split(s, sep)[j + 1];
      } else {
        assert s[i] in Split(s, sep)[j];
      }
    }
  }

  lemma {:induction false} SplitPiecesHoldChars(s: string, sep: char, c: char, j: nat)
    requires j < |Split(s, sep)| && c in Split(s, sep)[j]
    ensures c in s
  {
    if s != "" {
      var rest := Split(s[1..], sep);
      if s[0] == sep {
        SplitPiecesHoldChars(s[1..], sep, c, j - 1);
      } else if j > 0 || c in rest[0] {
        SplitPiecesHoldChars(s[1..], sep, c, j);
      }
    }
  }

  // ---- Sizes ----

  lemma {:induction false} SizeOfConcat(a: string, b: string)
    ensures Size(a + b) == Size(a) + Size(b)
  {
    if a == "" {
      assert a + b == b;
    } else {
      assert (a + b)[1..] == a[1..] + b;
      SizeOfConcat(a[1..], b);
    }
  }

  lemma {:induction false} SizeBounds(s: string)
    ensures |s| <= Size(s)
    ensures (forall i :: 0 <= i < |s| ==> (s[i] as int) < 0x80) ==> Size(s) == |s|
  {
    if s != "" { SizeBounds(s[1..]); }
  }

  lemma {:induction false} SplitPiecesArePlain(s: string, sep: char)
    ensures forall i :: 0 <= i < |Split(s, sep)| ==> sep !in Split(s, sep)[i]
  {
    if s != "" {
      SplitPiecesArePlain(s[1..], sep);
    }
  }
}
