/** Ranging over a Go map: its names come in any order, each once; what is sorted afterwards does not show it. */
module Listings {
  import opened Sorting

  /** The names of a set, each once, in any order. */
  ghost predicate IsListing(names: seq<string>, keys: set<string>) {
    Distinct(names) && forall x :: x in names <==> x in keys
  }

  function Kept<V>(values: map<string, V>, keep: V -> bool): set<string> {
    set x | x in values && keep(values[x])
  }

  /** Collect the names whose value is kept, in whatever order the map yields them. */
  method CollectNames<V>(values: map<string, V>, keep: V -> bool) returns (names: seq<string>)
    ensures IsListing(names, Kept(values, keep))
  {
    names := [];
    var pending := values.Keys;
    while pending != {}
      invariant pending <= values.Keys && Distinct(names)
      invariant forall x :: x in names <==> x in values.Keys - pending && keep(values[x])
      decreases pending
    {
      var name :| name in pending;
      assert name !in names;
      if keep(values[name]) { names := names + [name]; }
      pending := pending - {name};
    }
  }

  lemma ListingsPermute(a: seq<string>, b: seq<string>, keys: set<string>)
    requires IsListing(a, keys) && IsListing(b, keys)
    ensures multiset(a) == multiset(b)
  {
    forall x ensures multiset(a)[x] == multiset(b)[x] {
      DistinctCounts(a, x);
      DistinctCounts(b, x);
      assert x in multiset(a) <==> x in a;
      assert x in multiset(b) <==> x in b;
    }
  }

  function MapAll(f: string -> string, names: seq<string>): seq<string> {
    seq(|names|, i requires 0 <= i < |names| => f(names[i]))
  }

  lemma MapAllOfConcat(f: string -> string, a: seq<string>, b: seq<string>)
    ensures MapAll(f, a + b) == MapAll(f, a) + MapAll(f, b)
  {
  }

  lemma MapAllAround(f: string -> string, a: seq<string>, k: nat)
    requires k < |a|
    ensures multiset(MapAll(f, a)) == multiset{f(a[k])} + multiset(MapAll(f, a[..k] + a[k + 1..]))
    ensures multiset(a) == multiset{a[k]} + multiset(a[..k] + a[k + 1..])
  {
    assert a == a[..k] + [a[k]] + a[k + 1..];
    MapAllOfConcat(f, a[..k] + [a[k]], a[k + 1..]);
    MapAllOfConcat(f, a[..k], [a[k]]);
    MapAllOfConcat(f, a[..k], a[k + 1..]);
  }

  lemma CancelOne(x: string, m: multiset<string>, n: multiset<string>)
    requires multiset{x} + m == multiset{x} + n
    ensures m == n
  {
    assert m == (multiset{x} + m) - multiset{x};
    assert n == (multiset{x} + n) - multiset{x};
  }

  /** Applying a function to all names keeps permutations permutations. */
  lemma {:induction false} MapAllPermutes(f: string -> string, a: seq<string>, b: seq<string>)
    requires multiset(a) == multiset(b)
    ensures multiset(MapAll(f, a)) == multiset(MapAll(f, b))
    decreases |a|
  {
    assert |multiset(a)| == |a| && |multiset(b)| == |b|;
    if a != [] {
      assert a[0] in multiset(b);
      var k :| 0 <= k < |b| && b[k] == a[0];
      MapAllAround(f, a, 0);
      MapAllAround(f, b, k);
      CancelOne(a[0], multiset(a[..0] + a[1..]), multiset(b[..k] + b[k + 1..]));
      MapAllPermutes(f, a[..0] + a[1..], b[..k] + b[k + 1..]);
    }
  }

  /** Whatever is made of the names of a set is the same after sorting, in whatever order the names came. */
  lemma SortForgetsOrder(f: string -> string, a: seq<string>, b: seq<string>, keys: set<string>)
    requires IsListing(a, keys) && IsListing(b, keys)
    ensures Sort(MapAll(f, a)) == Sort(MapAll(f, b))
  {
    ListingsPermute(a, b, keys);
    MapAllPermutes(f, a, b);
    SortSorts(MapAll(f, a));
    SortSorts(MapAll(f, b));
    SortedIsCanonical(Sort(MapAll(f, a)), Sort(MapAll(f, b)));
  }
}
