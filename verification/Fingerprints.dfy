/** The allow-list of trusted key fingerprints: first occurrences, and when it survives being written and read again. */
module Fingerprints {
  import opened Text
  import opened Sorting

  /** Trimmed entries that are not blank, each at its first occurrence. */
  function Kept(values: seq<string>): seq<string> {
    if values == [] then []
    else
      var before := Kept(values[..|values| - 1]);
      var value := TrimSpace(values[|values| - 1]);
      if value == "" || value in before then before else before + [value]
  }

  function Candidates(keyring: string, legacy: string): seq<string> {
    if TrimSpace(keyring) == "" then [legacy] else Split(keyring, ',')
  }

  method FingerprintAllowlist(keyring: string, legacy: string) returns (allowlist: seq<string>)
    ensures allowlist == Kept(Candidates(keyring, legacy))
  {
    var values := Split(keyring, ',');
    if TrimSpace(keyring) == "" {
      values := [legacy];
    }
    allowlist := [];
    var seen: set<string> := {};
    for i := 0 to |values|
      invariant allowlist == Kept(values[..i])
      invariant forall x :: x in seen <==> x in allowlist
    {
      assert values[..i + 1][..i] == values[..i];
      var fingerprint := TrimSpace(values[i]);
      if fingerprint != "" && fingerprint !in seen {
        seen := seen + {fingerprint};
        allowlist := allowlist + [fingerprint];
      }
    }
    assert values[..|values|] == values;
  }

  ghost predicate Occurs(values: seq<string>, x: string) {
    exists i :: 0 <= i < |values| && TrimSpace(values[i]) == x
  }

  lemma OccursExtends(values: seq<string>, x: string)
    requires values != []
    ensures Occurs(values, x) <==> Occurs(values[..|values| - 1], x) || TrimSpace(values[|values| - 1]) == x
  {
    var front := values[..|values| - 1];
    if Occurs(values, x) && TrimSpace(values[|values| - 1]) != x {
      var i :| 0 <= i < |values| && TrimSpace(values[i]) == x;
      assert TrimSpace(front[i]) == x;
    }
    if Occurs(front, x) {
      var i :| 0 <= i < |front| && TrimSpace(front[i]) == x;
      assert TrimSpace(values[i]) == x;
    }
  }

  /** The list holds exactly the trimmed entries that are not blank, each once; longer input only extends it. */
  lemma {:induction false} KeptIsCanonical(values: seq<string>, x: string)
    ensures Distinct(Kept(values))
    ensures x in Kept(values) <==> x != "" && Occurs(values, x)
    ensures values != [] ==> Kept(values[..|values| - 1]) <= Kept(values)
  {
    if values != [] {
      KeptIsCanonical(values[..|values| - 1], x);
      OccursExtends(values, x);
    }
  }

  predicate AreEntries(list: seq<string>) {
    Distinct(list) && forall i :: 0 <= i < |list| ==> list[i] != "" && IsTrimmed(list[i])
  }

  lemma KeptAreEntries(values: seq<string>)
    ensures AreEntries(Kept(values))
  {
    KeptIsCanonical(values, "");
    forall i | 0 <= i < |Kept(values)| ensures Kept(values)[i] != "" && IsTrimmed(Kept(values)[i]) {
      var x := Kept(values)[i];
      KeptIsCanonical(values, x);
      var k :| 0 <= k < |values| && TrimSpace(values[k]) == x;
      TrimSpaceTrims(values[k]);
    }
  }

  lemma {:induction false} EntriesAreKept(list: seq<string>)
    requires AreEntries(list)
    ensures Kept(list) == list
  {
    if list != [] {
      var n := |list| - 1;
      EntriesAreKept(list[..n]);
      TrimmedStays(list[n]);
      assert list == list[..n] + [list[n]];
    }
  }

  /** Joined entries start and end with something visible, so they are never taken for a blank keyring. */
  lemma {:induction false} JoinedIsNotBlank(list: seq<string>)
    requires list != [] && AreEntries(list)
    ensures Join(list, ',') != "" && !IsSpace(Join(list, ',')[0])
  {
  }

  lemma NotBlank(s: string)
    requires s != "" && !IsSpace(s[0])
    ensures TrimSpace(s) != ""
  {
    if |s| > 0 && IsSpace(s[|s| - 1]) { KeepsFirst(s); }
  }

  lemma {:induction false} KeepsFirst(s: string)
    requires s != "" && !IsSpace(s[0])
    ensures TrimRight(s) != ""
  {
    if |s| > 1 && IsSpace(s[|s| - 1]) { KeepsFirst(s[..|s| - 1]); }
  }

  lemma PlainListIsReadBackIff(values: seq<string>, legacy: string)
    requires Kept(values) != []
    ensures
      var list := Kept(values);
      Kept(Candidates(Join(list, ','), legacy)) == list <==> forall i :: 0 <= i < |list| ==> ',' !in list[i]
  {
    var list := Kept(values);
    KeptAreEntries(values);
    JoinedIsNotBlank(list);
    NotBlank(Join(list, ','));
    if forall i :: 0 <= i < |list| ==> ',' !in list[i] {
      SplitOfJoin(list, ',');
      EntriesAreKept(list);
    } else {
      var i :| 0 <= i < |list| && ',' in list[i];
      KeyringHoldsNoComma(Join(list, ','), list[i]);
    }
  }

  /**
   * Writing the list as a keyring and reading it again, with whatever legacy value, gives the list back exactly when
   * it came from a keyring or from a legacy value without a comma.
   */
  lemma ReadingBackIff(keyring: string, legacy: string, other: string)
    requires Kept(Candidates(keyring, legacy)) != []
    ensures
      var list := Kept(Candidates(keyring, legacy));
      Kept(Candidates(Join(list, ','), other)) == list <==> TrimSpace(keyring) != "" || ',' !in TrimSpace(legacy)
  {
    var values := Candidates(keyring, legacy);
    var list := Kept(values);
    PlainListIsReadBackIff(values, other);
    if TrimSpace(keyring) != "" {
      forall i | 0 <= i < |list| ensures ',' !in list[i] {
        KeyringHoldsNoComma(keyring, list[i]);
      }
    } else {
      assert values[..0] == [];
      assert list == [TrimSpace(legacy)];
    }
  }

  lemma KeyringHoldsNoComma(keyring: string, x: string)
    ensures x in Kept(Split(keyring, ',')) ==> ',' !in x
  {
    var values := Split(keyring, ',');
    KeptIsCanonical(values, x);
    if x in Kept(values) {
      var k :| 0 <= k < |values| && TrimSpace(values[k]) == x;
      SplitPiecesArePlain(keyring, ',');
      TrimSpaceTrims(values[k]);
    }
  }
}
