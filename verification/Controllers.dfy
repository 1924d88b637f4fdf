/** The identities of the embedded Flux controllers, and the text behind the controller-set digest. */
module Controllers {
  import opened Prelude
  import opened Text
  import opened Sorting
  import opened Listings

  datatype Entry = Entry(component: string, digest: string, sourceRef: string)

  datatype Controller = Controller(version: string, digest: string, reference: string)

  predicate IsEntry(e: Entry) {
    && e.component != "" && LastIndexOf(e.sourceRef, ':') >= LastIndexOf(e.sourceRef, '/')
    && |e.digest| >= 7 && e.digest[..7] == "sha256:"
  }

  function ControllerOf(e: Entry): Controller {
    Controller(e.sourceRef[LastIndexOf(e.sourceRef, ':') + 1..], e.digest, e.sourceRef)
  }

  predicate AreEntries(entries: seq<Entry>) {
    forall i :: 0 <= i < |entries| ==> IsEntry(entries[i])
  }

  /** A later entry of a component replaces an earlier one. */
  function ControllerMap(entries: seq<Entry>): map<string, Controller> {
    if entries == [] then map[]
    else ControllerMap(entries[..|entries| - 1])[entries[|entries| - 1].component := ControllerOf(entries[|entries| - 1])]
  }

  /** The once-only part of `ControllerImages`. */
  method ReadControllers(entries: seq<Entry>) returns (r: Option<map<string, Controller>>)
    ensures r == if AreEntries(entries) && |ControllerMap(entries)| == 3 then Some(ControllerMap(entries)) else None
  {
    var controllers: map<string, Controller> := map[];
    for i := 0 to |entries|
      invariant AreEntries(entries[..i]) && controllers == ControllerMap(entries[..i])
    {
      assert entries[..i + 1][..i] == entries[..i];
      if !IsEntry(entries[i]) {
        return None;
      }
      controllers := controllers[entries[i].component := ControllerOf(entries[i])];
    }
    assert entries[..|entries|] == entries;
    r := if |controllers| == 3 then Some(controllers) else None;
  }

  /** The parts of an identity: the reference is a stem, a colon and the version, with neither colon nor slash after it. */
  lemma ControllerParts(e: Entry)
    requires IsEntry(e) && ':' in e.sourceRef
    ensures
      var c := ControllerOf(e);
      && c.reference == e.sourceRef && c.digest == e.digest && ':' !in c.version && '/' !in c.version
      && exists stem: string :: c.reference == stem + ":" + c.version
  {
    var colon := LastIndexOf(e.sourceRef, ':');
    var slash := LastIndexOf(e.sourceRef, '/');
    assert slash != colon;
    assert e.sourceRef == e.sourceRef[..colon] + ":" + e.sourceRef[colon + 1..];
    if slash >= 0 { assert e.sourceRef[colon + 1..] == e.sourceRef[slash + 1..][colon - slash..]; }
  }

  /** An entry is sound iff it names a component, a SHA-256 digest, and an untagged plain name or a tagged reference. */
  lemma EntryIff(e: Entry)
    ensures IsEntry(e) <==>
      && e.component != "" && "sha256:" <= e.digest
      && ((':' !in e.sourceRef && '/' !in e.sourceRef)
          || exists stem: string, version: string ::
               e.sourceRef == stem + ":" + version && ':' !in version && '/' !in version)
  {
    assert "sha256:" <= e.digest <==> |e.digest| >= 7 && e.digest[..7] == "sha256:";
    if IsEntry(e) && ':' in e.sourceRef {
      ControllerParts(e);
    }
    if stem: string, version: string :| e.sourceRef == stem + ":" + version && ':' !in version && '/' !in version {
      LastIndexIsLast(stem, ':', version);
      assert stem + [':'] + version == e.sourceRef;
      assert forall i :: |stem| < i < |e.sourceRef| ==> e.sourceRef[i] == version[i - |stem| - 1];
    }
  }

  // ---- Order of the entries ----

  predicate ComponentsDiffer(entries: seq<Entry>) {
    forall i, j :: 0 <= i < j < |entries| ==> entries[i].component != entries[j].component
  }

  lemma {:induction false} ControllerMapHolds(entries: seq<Entry>, k: nat)
    requires ComponentsDiffer(entries) && k < |entries|
    ensures entries[k].component in ControllerMap(entries)
    ensures ControllerMap(entries)[entries[k].component] == ControllerOf(entries[k])
    decreases |entries|
  {
    if k < |entries| - 1 { ControllerMapHolds(entries[..|entries| - 1], k); }
  }

  lemma {:induction false} ControllerMapKeys(entries: seq<Entry>, x: string)
    requires x in ControllerMap(entries)
    ensures exists k :: 0 <= k < |entries| && entries[k].component == x
  {
    var n := |entries| - 1;
    if x != entries[n].component {
      ControllerMapKeys(entries[..n], x);
      var k :| 0 <= k < n && entries[..n][k].component == x;
      assert entries[k].component == x;
    }
  }

  lemma ControllerMapWithin(a: seq<Entry>, b: seq<Entry>)
    requires ComponentsDiffer(a) && ComponentsDiffer(b) && multiset(a) == multiset(b)
    ensures forall x :: x in ControllerMap(a) ==> x in ControllerMap(b) && ControllerMap(b)[x] == ControllerMap(a)[x]
  {
    forall x | x in ControllerMap(a) ensures x in ControllerMap(b) && ControllerMap(b)[x] == ControllerMap(a)[x] {
      ControllerMapKeys(a, x);
      var k :| 0 <= k < |a| && a[k].component == x;
      assert a[k] in multiset(b);
      var j :| 0 <= j < |b| && b[j] == a[k];
      ControllerMapHolds(a, k);
      ControllerMapHolds(b, j);
    }
  }

  /** Reordering entries with distinct components changes nothing. */
  lemma EntriesInAnyOrder(a: seq<Entry>, b: seq<Entry>)
    requires ComponentsDiffer(a) && multiset(a) == multiset(b)
    ensures ControllerMap(a) == ControllerMap(b) && (AreEntries(a) <==> AreEntries(b))
  {
    PermutedDiffer(a, b);
    ControllerMapWithin(a, b);
    ControllerMapWithin(b, a);
    assert forall i :: 0 <= i < |a| ==> a[i] in multiset(b);
    assert forall i :: 0 <= i < |b| ==> b[i] in multiset(a);
  }

  lemma PermutedDiffer(a: seq<Entry>, b: seq<Entry>)
    requires ComponentsDiffer(a) && multiset(a) == multiset(b)
    ensures ComponentsDiffer(b)
  {
    forall i, j | 0 <= i < j < |b| ensures b[i].component != b[j].component {
      assert b[i] in multiset(a) && b[j] in multiset(a);
      var k :| 0 <= k < |a| && a[k] == b[i];
      var l :| 0 <= l < |a| && a[l] == b[j];
      if k == l {
        assert b == b[..i] + [b[i]] + b[i + 1..j] + [b[j]] + b[j + 1..];
        assert multiset(b)[b[i]] >= 2;
        CountedOnce(a, k);
      }
    }
  }

  lemma CountedOnce(a: seq<Entry>, k: nat)
    requires ComponentsDiffer(a) && k < |a|
    ensures multiset(a)[a[k]] == 1
  {
    assert a == a[..k] + [a[k]] + a[k + 1..];
    assert a[k] !in a[..k] && a[k] !in a[k + 1..];
  }

  // ---- The digest ----

  function IdentityText(controllers: map<string, Controller>): string -> string {
    name => if name in controllers then name + "=" + controllers[name].reference + "@" + controllers[name].digest else ""
  }

  /** The text behind the digest, for the names in one order. */
  function DigestText(controllers: map<string, Controller>, names: seq<string>): string {
    Join(Sort(MapAll(IdentityText(controllers), names)), '\n')
  }

  /** `ControllerSetDigest` up to hashing. */
  method DigestInput(controllers: map<string, Controller>) returns (text: string)
    ensures forall names :: IsListing(names, controllers.Keys) ==> text == DigestText(controllers, names)
  {
    var names := CollectNames(controllers, (_: Controller) => true);
    assert Kept(controllers, (_: Controller) => true) == controllers.Keys;
    var identities: seq<string> := [];
    for i := 0 to |names|
      invariant identities == MapAll(IdentityText(controllers), names[..i])
    {
      assert names[i] in names;
      identities := identities + [names[i] + "=" + controllers[names[i]].reference + "@" + controllers[names[i]].digest];
    }
    assert names[..|names|] == names;
    text := Join(Sort(identities), '\n');
    forall other | IsListing(other, controllers.Keys) ensures text == DigestText(controllers, other) {
      SortForgetsOrder(IdentityText(controllers), names, other, controllers.Keys);
    }
  }

  /** The digest text depends on the set of entries only. */
  lemma DigestForgetsOrder(a: seq<Entry>, b: seq<Entry>, names: seq<string>, other: seq<string>)
    requires ComponentsDiffer(a) && multiset(a) == multiset(b)
    requires IsListing(names, ControllerMap(a).Keys) && IsListing(other, ControllerMap(b).Keys)
    ensures DigestText(ControllerMap(a), names) == DigestText(ControllerMap(b), other)
  {
    EntriesInAnyOrder(a, b);
    SortForgetsOrder(IdentityText(ControllerMap(a)), names, other, ControllerMap(a).Keys);
  }

  predicate HoldNoBreak(lines: seq<string>) {
    forall i :: 0 <= i < |lines| ==> '\n' !in lines[i]
  }

  lemma {:induction false} OnePieceIsPlain(s: string)
    requires |Split(s, '\n')| == 1
    ensures '\n' !in s
  {
    if s != "" {
      OnePieceIsPlain(s[1..]);
      assert s == [s[0]] + s[1..];
    }
  }

  /** Joined lines split into at least as many pieces, and into as many only if no line holds a break. */
  lemma {:induction false} PiecesOfJoined(lines: seq<string>)
    requires lines != []
    ensures |Split(Join(lines, '\n'), '\n')| >= |lines|
    ensures |Split(Join(lines, '\n'), '\n')| == |lines| ==> HoldNoBreak(lines)
  {
    if |lines| == 1 {
      if |Split(lines[0], '\n')| == 1 { OnePieceIsPlain(lines[0]); }
    } else {
      PiecesOfJoined(lines[1..]);
      SplitConcat(lines[0], Join(lines[1..], '\n'), '\n');
      if |Split(Join(lines, '\n'), '\n')| == |lines| { OnePieceIsPlain(lines[0]); }
    }
  }

  lemma SortKeepsBreaks(lines: seq<string>)
    ensures HoldNoBreak(Sort(lines)) <==> HoldNoBreak(lines)
  {
    SortSorts(lines);
    assert forall i :: 0 <= i < |lines| ==> lines[i] in multiset(Sort(lines));
    assert forall i :: 0 <= i < |Sort(lines)| ==> Sort(lines)[i] in multiset(lines);
  }

  lemma JoinCommits(a: seq<string>, b: seq<string>)
    requires a != [] && |a| == |b| && HoldNoBreak(a) && Join(a, '\n') == Join(b, '\n')
    ensures a == b
  {
    SplitOfJoin(a, '\n');
    PiecesOfJoined(b);
    SplitOfJoin(b, '\n');
  }

  /** The text commits to the controllers: no other set of as many identities has it, if no identity holds a line break. */
  lemma DigestTextCommits(c: map<string, Controller>, names: seq<string>, d: map<string, Controller>, other: seq<string>)
    requires names != [] && |names| == |other| && HoldNoBreak(MapAll(IdentityText(c), names))
    requires DigestText(c, names) == DigestText(d, other)
    ensures multiset(MapAll(IdentityText(c), names)) == multiset(MapAll(IdentityText(d), other))
  {
    var lines, others := MapAll(IdentityText(c), names), MapAll(IdentityText(d), other);
    SortSorts(lines);
    SortSorts(others);
    SortKeepsBreaks(lines);
    JoinCommits(Sort(lines), Sort(others));
  }
}
