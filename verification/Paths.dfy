/** `path.Clean` on the rooted paths of URLs: dot segments, repeated slashes and a trailing slash disappear. */
module Paths {
  import opened Text

  predicate IsPlainSegment(s: string) {
    s != "" && s != "." && s != ".." && '/' !in s
  }

  predicate ArePlain(segments: seq<string>) {
    forall i :: 0 <= i < |segments| ==> IsPlainSegment(segments[i])
  }

  function Step(stack: seq<string>, piece: string): seq<string> {
    if piece == "" || piece == "." then stack
    else if piece == ".." then (if stack == [] then [] else stack[..|stack| - 1])
    else stack + [piece]
  }

  function Walk(stack: seq<string>, pieces: seq<string>): seq<string>
    decreases |pieces|
  {
    if pieces == [] then stack else Walk(Step(stack, pieces[0]), pieces[1..])
  }

  /** The segments a rooted path stands for. */
  function Segments(path: string): seq<string> {
    Walk([], Split(path, '/'))
  }

  /** The shortest spelling of those segments; the root is the empty text. */
  function PathOf(segments: seq<string>): string {
    if segments == [] then "" else "/" + Join(segments, '/')
  }

  // ---- Walking ----

  lemma {:induction false} WalkSplits(stack: seq<string>, a: seq<string>, b: seq<string>)
    ensures Walk(stack, a + b) == Walk(Walk(stack, a), b)
    decreases |a|
  {
    if a == [] {
      assert a + b == b;
    } else {
      assert (a + b)[1..] == a[1..] + b;
      WalkSplits(Step(stack, a[0]), a[1..], b);
    }
  }

  lemma {:induction false} WalkOfPlain(stack: seq<string>, segments: seq<string>)
    requires ArePlain(segments)
    ensures Walk(stack, segments) == stack + segments
    decreases |segments|
  {
    if segments != [] {
      WalkOfPlain(stack + [segments[0]], segments[1..]);
      assert stack + [segments[0]] + segments[1..] == stack + segments;
    }
  }

  lemma {:induction false} WalkKeepsPlain(stack: seq<string>, pieces: seq<string>)
    requires ArePlain(stack) && forall i :: 0 <= i < |pieces| ==> '/' !in pieces[i]
    ensures ArePlain(Walk(stack, pieces))
    decreases |pieces|
  {
    if pieces != [] { WalkKeepsPlain(Step(stack, pieces[0]), pieces[1..]); }
  }

  lemma {:induction false} WalkKeepsChars(stack: seq<string>, pieces: seq<string>, i: nat)
    requires i < |Walk(stack, pieces)|
    ensures Walk(stack, pieces)[i] in stack + pieces
    decreases |pieces|
  {
    if pieces != [] { WalkKeepsChars(Step(stack, pieces[0]), pieces[1..], i); }
  }

  // ---- Segments and their spelling ----

  lemma SegmentsArePlain(path: string)
    ensures ArePlain(Segments(path))
  {
    SplitPiecesArePlain(path, '/');
    WalkKeepsPlain([], Split(path, '/'));
  }

  lemma SegmentsHoldChars(path: string, i: nat, c: char)
    requires i < |Segments(path)| && c in Segments(path)[i]
    ensures c in path
  {
    var pieces := Split(path, '/');
    WalkKeepsChars([], pieces, i);
    var j :| 0 <= j < |pieces| && pieces[j] == Segments(path)[i];
    SplitPiecesHoldChars(path, '/', c, j);
  }

  /** Spelling plain segments and reading them again gives them back. */
  lemma SegmentsOfPathOf(segments: seq<string>)
    requires ArePlain(segments)
    ensures Segments(PathOf(segments)) == segments
  {
    if segments == [] {
      assert Walk([], [""]) == Walk([], []);
    } else {
      SplitAtSeparator("", Join(segments, '/'), '/');
      assert "" + ['/'] + Join(segments, '/') == PathOf(segments);
      SplitOfJoin(segments, '/');
      WalkSplits([], [""], segments);
      assert Walk([], [""]) == Walk([], []);
      WalkOfPlain([], segments);
      assert [] + segments == segments;
    }
  }

  // ---- Spellings of one path (section 5.2.4 of RFC 3986) ----

  predicate IsTail(rest: string) {
    rest == "" || rest[0] == '/'
  }

  lemma SegmentsOfJoined(path: string, rest: string)
    requires IsTail(rest)
    ensures Segments(path + rest) == Walk(Segments(path), Split(rest, '/'))
  {
    if rest == "" {
      assert path + rest == path;
      assert Walk(Segments(path), [""]) == Walk(Segments(path), []);
    } else {
      SplitConcat(path, rest[1..], '/');
      SplitAtSeparator("", rest[1..], '/');
      assert "" + ['/'] + rest[1..] == rest;
      assert path + ['/'] + rest[1..] == path + rest;
      WalkSplits([], Split(path, '/'), Split(rest[1..], '/'));
      WalkSplits(Segments(path), [""], Split(rest[1..], '/'));
      assert Walk(Segments(path), [""]) == Walk(Segments(path), []);
    }
  }

  /** A `.` segment, a name undone by `..`, and a trailing slash change nothing. */
  lemma DotSegmentsVanish(path: string, name: string, rest: string)
    requires IsTail(rest) && IsPlainSegment(name)
    ensures Segments(path + "/." + rest) == Segments(path + rest)
    ensures Segments(path + "/" + name + "/.." + rest) == Segments(path + rest)
    ensures Segments(path + "/") == Segments(path)
  {
    SegmentsOfJoined(path, rest);
    SegmentsOfJoined(path + "/.", rest);
    SegmentsOfJoined(path + "/" + name + "/..", rest);
    SegmentAppended(path, ".");
    SegmentAppended(path, "");
    SegmentAppended(path, name);
    SegmentAppended(path + "/" + name, "..");
    assert path + "/" + "" == path + "/";
    assert path + "/" + "." == path + "/.";
    assert path + "/" + name + "/" + ".." == path + "/" + name + "/..";
    var stack := Segments(path);
    assert (stack + [name])[..|stack|] == stack;
  }

  /** Nothing is above the root. */
  lemma ParentOfRoot(rest: string)
    requires IsTail(rest)
    ensures Segments("/.." + rest) == Segments(rest)
  {
    SegmentAppended("", "..");
    assert "" + "/" + ".." == "/..";
    SegmentsOfJoined("/..", rest);
    SegmentsOfJoined("", rest);
    assert "" + rest == rest;
    assert Segments("") == [] by { assert Walk([], [""]) == Walk([], []); }
  }

  lemma SegmentAppended(path: string, piece: string)
    requires '/' !in piece
    ensures Segments(path + "/" + piece) == Step(Segments(path), piece)
  {
    SplitConcat(path, piece, '/');
    SplitOfPlain(piece, '/');
    WalkSplits([], Split(path, '/'), [piece]);
    assert Walk(Segments(path), [piece]) == Walk(Step(Segments(path), piece), []);
  }

  // ---- Lengths ----

  function Weight(pieces: seq<string>): nat {
    if pieces == [] then 0 else |pieces[0]| + 1 + Weight(pieces[1..])
  }

  lemma {:induction false} WeightOfConcat(a: seq<string>, b: seq<string>)
    ensures Weight(a + b) == Weight(a) + Weight(b)
  {
    if a == [] {
      assert a + b == b;
    } else {
      assert (a + b)[1..] == a[1..] + b;
      WeightOfConcat(a[1..], b);
    }
  }

  lemma {:induction false} WeightOfSplit(s: string)
    ensures Weight(Split(s, '/')) == |s| + 1
  {
    if s != "" { WeightOfSplit(s[1..]); }
  }

  lemma {:induction false} WeightOfJoin(segments: seq<string>)
    ensures |PathOf(segments)| == Weight(segments)
  {
    if |segments| > 1 { WeightOfJoin(segments[1..]); }
  }

  lemma {:induction false} WalkShrinks(stack: seq<string>, pieces: seq<string>)
    ensures Weight(Walk(stack, pieces)) <= Weight(stack) + Weight(pieces)
    decreases |pieces|
  {
    if pieces != [] {
      var next := Step(stack, pieces[0]);
      if stack != [] {
        assert stack == stack[..|stack| - 1] + [stack[|stack| - 1]];
        WeightOfConcat(stack[..|stack| - 1], [stack[|stack| - 1]]);
      }
      WeightOfConcat(stack, [pieces[0]]);
      WalkShrinks(next, pieces[1..]);
    }
  }

  lemma CleaningShrinks(path: string)
    requires IsTail(path)
    ensures |PathOf(Segments(path))| <= |path|
  {
    WeightOfJoin(Segments(path));
    if path == "" {
      assert Walk([], [""]) == Walk([], []);
    } else {
      SplitAtSeparator("", path[1..], '/');
      assert "" + ['/'] + path[1..] == path;
      WalkSplits([], [""], Split(path[1..], '/'));
      assert Walk([], [""]) == Walk([], []);
      WalkShrinks([], Split(path[1..], '/'));
      WeightOfSplit(path[1..]);
    }
  }
}
