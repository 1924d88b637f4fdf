/** The release bundle: its bill of materials (BOM), the order of its members, and the reader that closes it. */
module Archives {
  import opened Sorting
  import opened Listings

  newtype Byte = x: int | 0 <= x < 256

  type Bytes = seq<Byte>

  datatype Entry = Entry(name: string, data: Bytes)

  datatype Member = Member(path: string, digest: string, size: nat, category: string)

  const BOM := "bom.json"

  // ---- Producing ----

  function Category(path: string): string {
    if path == "catalog.json" then "catalog"
    else if |path| >= 7 && path[..7] == "charts/" then "chart"
    else if path == "profiles/values.json" then "values"
    else if path == "profiles/images.json" then "image_inventory"
    else "vulnerability_database"
  }

  /** The category a path stands for: the catalog, a chart, the values, the image inventory, or a database. */
  ghost predicate IsCategoryOf(category: string, path: string) {
    && (category == "catalog" <==> path == "catalog.json")
    && (category == "chart" <==> "charts/" <= path)
    && (category == "values" <==> path == "profiles/values.json")
    && (category == "image_inventory" <==> path == "profiles/images.json")
    && category in {"catalog", "chart", "values", "image_inventory", "vulnerability_database"}
  }

  lemma CategoryFits(path: string)
    ensures IsCategoryOf(Category(path), path)
  {
    assert "charts/" <= path <==> |path| >= 7 && path[..7] == "charts/";
    assert path == "catalog.json" ==> path[1] == 'a' && path[0] == 'c' && path[2] == 't';
    assert path == "profiles/values.json" ==> path[0] == 'p' && path[9] == 'v';
    assert path == "profiles/images.json" ==> path[0] == 'p' && path[9] == 'i';
    assert "charts/" <= path ==> path[1] == 'h';
  }

  /** The sorted enumeration of a set of names. */
  ghost predicate Enumerates(names: seq<string>, keys: set<string>) {
    IsSorted(names) && IsListing(names, keys)
  }

  method SortedNames(members: map<string, Bytes>) returns (names: seq<string>)
    ensures Enumerates(names, members.Keys) && |names| == |members|
  {
    var found := CollectNames(members, (_: Bytes) => true);
    assert Kept(members, (_: Bytes) => true) == members.Keys;
    SortKeepsDistinct(found, members.Keys);
    names := Sort(found);
    assert |members| == |members.Keys|;
  }

  function Describe(hash: Bytes -> string, path: string, data: Bytes): Member {
    Member(path, hash(data), |data|, Category(path))
  }

  function Paths(bom: seq<Member>): seq<string> {
    seq(|bom|, i requires 0 <= i < |bom| => bom[i].path)
  }

  /** A BOM lists the members in order, each once, with its own digest, size and category. */
  ghost predicate Describes(hash: Bytes -> string, members: map<string, Bytes>, bom: seq<Member>) {
    && Enumerates(Paths(bom), members.Keys)
    && forall i :: 0 <= i < |bom| ==> bom[i].path in members && bom[i] == Describe(hash, bom[i].path, members[bom[i].path])
  }

  method WriteBom(hash: Bytes -> string, members: map<string, Bytes>) returns (bom: seq<Member>)
    ensures Describes(hash, members, bom) && |bom| == |members|
    ensures forall i :: 0 <= i < |bom| ==>
      && bom[i].path in members
      && bom[i].digest == hash(members[bom[i].path]) && bom[i].size == |members[bom[i].path]|
    ensures forall i :: 0 <= i < |bom| ==> IsCategoryOf(bom[i].category, bom[i].path)
  {
    var names := SortedNames(members);
    bom := [];
    for i := 0 to |names|
      invariant |bom| == i
      invariant forall k :: 0 <= k < i ==> names[k] in members && bom[k] == Describe(hash, names[k], members[names[k]])
      invariant forall k :: 0 <= k < i ==> IsCategoryOf(bom[k].category, bom[k].path)
    {
      assert names[i] in names;
      CategoryFits(names[i]);
      bom := bom + [Describe(hash, names[i], members[names[i]])];
    }
    assert Paths(bom) == names;
  }

  /** The tar entries: every member once, in order. */
  ghost predicate Packs(entries: seq<Entry>, members: map<string, Bytes>) {
    && Enumerates(EntryNames(entries), members.Keys)
    && forall i :: 0 <= i < |entries| ==> entries[i].name in members && entries[i].data == members[entries[i].name]
  }

  function EntryNames(entries: seq<Entry>): seq<string> {
    seq(|entries|, i requires 0 <= i < |entries| => entries[i].name)
  }

  method WriteArchive(members: map<string, Bytes>) returns (entries: seq<Entry>)
    ensures Packs(entries, members)
  {
    var names := SortedNames(members);
    entries := [];
    for i := 0 to |names|
      invariant |entries| == i
      invariant forall k :: 0 <= k < i ==> names[k] in members && entries[k] == Entry(names[k], members[names[k]])
    {
      assert names[i] in names;
      entries := entries + [Entry(names[i], members[names[i]])];
    }
    assert EntryNames(entries) == names;
  }

  // ---- Reading ----

  function Unpacked(entries: seq<Entry>): map<string, Bytes> {
    if entries == [] then map[]
    else Unpacked(entries[..|entries| - 1])[entries[|entries| - 1].name := entries[|entries| - 1].data]
  }

  lemma {:induction false} UnpackedKeys(entries: seq<Entry>)
    ensures forall x :: x in Unpacked(entries) <==> x in EntryNames(entries)
  {
    if entries != [] {
      var n := |entries| - 1;
      UnpackedKeys(entries[..n]);
      assert EntryNames(entries) == EntryNames(entries[..n]) + [entries[n].name];
    }
  }

  /** Members are collected one by one; a repeated name ends the reading. */
  method ReadMembers(entries: seq<Entry>) returns (ok: bool, members: map<string, Bytes>)
    ensures ok <==> Distinct(EntryNames(entries))
    ensures ok ==> members == Unpacked(entries)
  {
    members := map[];
    for i := 0 to |entries|
      invariant members == Unpacked(entries[..i]) && Distinct(EntryNames(entries[..i]))
    {
      UnpackedKeys(entries[..i]);
      var names := EntryNames(entries[..i]);
      assert entries[..i + 1][..i] == entries[..i];
      assert EntryNames(entries[..i + 1]) == names + [entries[i].name];
      if entries[i].name in members {
        var k :| 0 <= k < |names| && names[k] == entries[i].name;
        assert EntryNames(entries)[k] == EntryNames(entries)[i];
        return false, members;
      }
      members := members[entries[i].name := entries[i].data];
    }
    assert entries[..|entries|] == entries;
    ok := true;
  }

  predicate Matches(hash: Bytes -> string, members: map<string, Bytes>, m: Member) {
    m.path in members && |members[m.path]| == m.size && hash(members[m.path]) == m.digest
  }

  /** What the BOM itself must meet; `isSound` stands for the path, pattern, category and size rules of one member. */
  predicate IsSoundBom(isSound: Member -> bool, bom: seq<Member>) {
    && Distinct(Paths(bom)) && BOM !in Paths(bom)
    && forall i :: 0 <= i < |bom| ==> isSound(bom[i])
  }

  predicate AllMatch(hash: Bytes -> string, members: map<string, Bytes>, bom: seq<Member>) {
    forall i :: 0 <= i < |bom| ==> Matches(hash, members, bom[i])
  }

  method CheckBom(isSound: Member -> bool, bom: seq<Member>) returns (ok: bool)
    ensures ok <==> IsSoundBom(isSound, bom)
    ensures ok <==>
      && (forall i :: 0 <= i < |bom| ==> isSound(bom[i]) && bom[i].path != "bom.json")
      && (forall i, j :: 0 <= i < j < |bom| ==> bom[i].path != bom[j].path)
  {
    SoundBomIff(isSound, bom);
    var seen: set<string> := {};
    for i := 0 to |bom|
      invariant IsSoundBom(isSound, bom[..i])
      invariant forall x :: x in seen <==> x in Paths(bom[..i])
    {
      var paths := Paths(bom[..i]);
      assert Paths(bom)[i] == bom[i].path && forall k :: 0 <= k < i ==> Paths(bom)[k] == paths[k];
      if !isSound(bom[i]) || bom[i].path == BOM || bom[i].path in seen {
        return false;
      }
      assert Paths(bom[..i + 1]) == paths + [bom[i].path];
      seen := seen + {bom[i].path};
    }
    assert bom[..|bom|] == bom;
    ok := true;
  }

  lemma SoundBomIff(isSound: Member -> bool, bom: seq<Member>)
    ensures IsSoundBom(isSound, bom) <==>
      && (forall i :: 0 <= i < |bom| ==> isSound(bom[i]) && bom[i].path != "bom.json")
      && (forall i, j :: 0 <= i < j < |bom| ==> bom[i].path != bom[j].path)
  {
    assert forall i :: 0 <= i < |bom| ==> Paths(bom)[i] == bom[i].path;
    if IsSoundBom(isSound, bom) {
      forall i | 0 <= i < |bom| ensures bom[i].path != "bom.json" { assert Paths(bom)[i] in Paths(bom); }
      forall i, j | 0 <= i < j < |bom| ensures bom[i].path != bom[j].path { assert Paths(bom)[i] != Paths(bom)[j]; }
    }
  }

  /** A tampered member, by digest or size, is refused, whatever the rest. */
  lemma TamperedIsRefused(hash: Bytes -> string, isSound: Member -> bool, members: map<string, Bytes>,
                          bom: seq<Member>, i: nat)
    requires i < |bom| && bom[i].path in members
    requires hash(members[bom[i].path]) != bom[i].digest || |members[bom[i].path]| != bom[i].size
    ensures !PassesCheck(hash, isSound, members, bom)
  {
    assert !Matches(hash, members, bom[i]);
  }

  /** The closing check: a sound BOM, one member more than it lists, and every listed member as listed. */
  predicate PassesCheck(hash: Bytes -> string, isSound: Member -> bool, members: map<string, Bytes>, bom: seq<Member>) {
    IsSoundBom(isSound, bom) && |members| == |bom| + 1 && AllMatch(hash, members, bom)
  }

  method CheckClosed(hash: Bytes -> string, isSound: Member -> bool, members: map<string, Bytes>, bom: seq<Member>)
    returns (ok: bool)
    ensures ok <==> PassesCheck(hash, isSound, members, bom)
    ensures ok ==> forall i :: 0 <= i < |bom| ==>
      bom[i].path in members && hash(members[bom[i].path]) == bom[i].digest && |members[bom[i].path]| == bom[i].size
  {
    ok := CheckBom(isSound, bom);
    if !ok || |members| != |bom| + 1 {
      return false;
    }
    for i := 0 to |bom|
      invariant AllMatch(hash, members, bom[..i])
    {
      if !Matches(hash, members, bom[i]) {
        return false;
      }
    }
    assert bom[..|bom|] == bom;
  }

  // ---- What closing means ----

  ghost predicate IsClosed(hash: Bytes -> string, isSound: Member -> bool, members: map<string, Bytes>, bom: seq<Member>) {
    && IsSoundBom(isSound, bom) && AllMatch(hash, members, bom)
    && forall x :: x in members.Keys <==> x == BOM || x in Paths(bom)
  }

  lemma PathsAreCounted(bom: seq<Member>, listed: set<string>)
    requires Distinct(Paths(bom)) && BOM !in Paths(bom)
    requires listed == set x | x in Paths(bom)
    ensures |listed + {BOM}| == |bom| + 1
  {
    DistinctCoversSet(Paths(bom), listed);
  }

  lemma SubsetOfEqualSize(a: set<string>, b: set<string>)
    requires a <= b && |a| == |b|
    ensures a == b
  {
    assert b == a + (b - a);
  }

  /** Counting suffices: the reader accepts exactly the archives that hold the BOM, what it lists, and nothing else. */
  lemma CountingCloses(hash: Bytes -> string, isSound: Member -> bool, members: map<string, Bytes>, bom: seq<Member>)
    requires BOM in members
    ensures PassesCheck(hash, isSound, members, bom) <==> IsClosed(hash, isSound, members, bom)
  {
    if IsSoundBom(isSound, bom) && AllMatch(hash, members, bom) {
      var listed := set x | x in Paths(bom);
      PathsAreCounted(bom, listed);
      assert |members| == |members.Keys|;
      forall x | x in listed + {BOM} ensures x in members.Keys {
        if x != BOM {
          var k :| 0 <= k < |Paths(bom)| && Paths(bom)[k] == x;
          assert Matches(hash, members, bom[k]);
        }
      }
      if |members| == |bom| + 1 { SubsetOfEqualSize(listed + {BOM}, members.Keys); }
      if IsClosed(hash, isSound, members, bom) { assert members.Keys == listed + {BOM}; }
    }
  }

  // ---- Producer against reader ----

  lemma PackedNamesAreUnique(entries: seq<Entry>, members: map<string, Bytes>)
    requires Packs(entries, members)
    ensures Distinct(EntryNames(entries)) && Unpacked(entries) == members
  {
    UnpackedKeys(entries);
    forall x | x in members ensures Unpacked(entries)[x] == members[x] {
      var k :| 0 <= k < |EntryNames(entries)| && EntryNames(entries)[k] == x;
      UnpackedAt(entries, k);
    }
  }

  lemma {:induction false} UnpackedAt(entries: seq<Entry>, k: nat)
    requires k < |entries| && Distinct(EntryNames(entries))
    ensures entries[k].name in Unpacked(entries) && Unpacked(entries)[entries[k].name] == entries[k].data
    decreases |entries|
  {
    var n := |entries| - 1;
    if k < n {
      assert forall i :: 0 <= i < n ==> EntryNames(entries[..n])[i] == EntryNames(entries)[i];
      UnpackedAt(entries[..n], k);
      assert EntryNames(entries)[k] != EntryNames(entries)[n];
    }
  }

  /**
   * A produced bundle is read back and found closed: for any members without a BOM of their own, their BOM encoded as
   * one more member, packed and unpacked.
   */
  lemma ProducedBundleIsClosed(
    hash: Bytes -> string, isSound: Member -> bool, members: map<string, Bytes>, bom: seq<Member>, encoded: Bytes,
    entries: seq<Entry>)
    requires BOM !in members && Describes(hash, members, bom) && Packs(entries, members[BOM := encoded])
    requires forall i :: 0 <= i < |bom| ==> isSound(bom[i])
    ensures Distinct(EntryNames(entries)) && Unpacked(entries) == members[BOM := encoded]
    ensures PassesCheck(hash, isSound, Unpacked(entries), bom)
  {
    var all := members[BOM := encoded];
    PackedNamesAreUnique(entries, all);
    assert BOM !in Paths(bom);
    forall i | 0 <= i < |bom| ensures Matches(hash, all, bom[i]) {
      assert Paths(bom)[i] in Paths(bom);
    }
    CountingCloses(hash, isSound, all, bom);
  }

  lemma EnumerationIsUnique(a: seq<string>, b: seq<string>, keys: set<string>)
    requires Enumerates(a, keys) && Enumerates(b, keys)
    ensures a == b
  {
    ListingsPermute(a, b, keys);
    SortedIsCanonical(a, b);
  }

  /** Neither the BOM nor the archive depends on the order in which the map yields its members. */
  lemma OutputIsDetermined(
    hash: Bytes -> string, members: map<string, Bytes>, a: seq<Member>, b: seq<Member>, c: seq<Entry>, d: seq<Entry>)
    requires Describes(hash, members, a) && Describes(hash, members, b) && Packs(c, members) && Packs(d, members)
    ensures a == b && c == d
  {
    EnumerationIsUnique(Paths(a), Paths(b), members.Keys);
    EnumerationIsUnique(EntryNames(c), EntryNames(d), members.Keys);
    assert |Paths(a)| == |a| && |Paths(b)| == |b| && |EntryNames(c)| == |c| && |EntryNames(d)| == |d|;
    forall i | 0 <= i < |a| ensures a[i] == b[i] { assert Paths(a)[i] == Paths(b)[i]; }
    forall i | 0 <= i < |c| ensures c[i] == d[i] { assert EntryNames(c)[i] == EntryNames(d)[i]; }
  }
}
