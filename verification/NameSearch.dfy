/**
 Finding the names that contain a text: intersecting the posting lists of the text's trigrams finds exactly the names a
 scan of every name would.
 */
module NameSearch {
  import opened Common
  import opened Sorting
  import opened SegmentRecords
  import opened SegmentTables
  import opened SegmentSearch
  import L = SegmentLookup

  /** Binary search for a member. */
  method Member(s: seq<nat>, n: nat) returns (found: bool)
    requires Increasing(s)
    ensures found == (n in s)
  {
    var lo, hi := 0, |s|;
    while lo < hi
      invariant 0 <= lo <= hi <= |s|
      invariant forall k :: 0 <= k < lo ==> s[k] < n
      invariant forall k :: hi <= k < |s| ==> s[k] >= n
    {
      var mid := (lo + hi) / 2;
      if s[mid] < n { lo := mid + 1; } else { hi := mid; }
    }
    found := lo < |s| && s[lo] == n;
  }

  /** Name n has a trigram. */
  ghost predicate Has(t: Tables, n: nat, g: Str)
    requires PairsOk(t.strs, t.names)
  {
    n < |t.names| && g in Trigrams(LowerNames(t)[n])
  }

  /** intersectNames: the names with every one of the trigrams. */
  method IntersectNames(t: Tables, grams: seq<Str>) returns (r: seq<nat>)
    requires GramsIndexed(t) && grams != []
    ensures forall n: nat :: n in r <==> forall g :: g in grams ==> Has(t, n, g)
  {
    hide Trigrams, IsDict, LowerNames, Increasing;
    var lists: seq<seq<nat>> := [];
    for i := 0 to |grams|
      invariant |lists| == i
      invariant forall k: nat :: k < i ==> Increasing(lists[k]) && forall n: nat :: n in lists[k] <==> Has(t, n, grams[k])
    {
      var l := L.TrigramNames(t, grams[i]);
      if |l| == 0 {
        assert grams[i] in grams;
        forall n: nat ensures !Has(t, n, grams[i]) { assert n !in l; }
        return [];
      }
      lists := lists + [l];
    }
    var sorted := SortByKey(lists, (l: seq<nat>) => [Num(|l|)]);
    r := sorted[0];
    for i := 1 to |sorted|
      invariant forall n: nat :: n in r <==> forall k :: 0 <= k < i ==> n in sorted[k]
    {
      assert sorted[i] in lists;
      r := Keep(r, sorted[i]);
      if |r| == 0 { break; }
    }
    AllLists(t, grams, lists, sorted, r);
  }

  /** The elements of r that are in l, in order. */
  method Keep(r: seq<nat>, l: seq<nat>) returns (kept: seq<nat>)
    requires Increasing(l)
    ensures forall n: nat :: n in kept <==> n in r && n in l
  {
    kept := [];
    for i := 0 to |r|
      invariant forall n: nat :: n in kept <==> n in r[..i] && n in l
    {
      assert r[..i + 1] == r[..i] + [r[i]];
      var found := Member(l, r[i]);
      if found { kept := kept + [r[i]]; }
    }
    assert r[..|r|] == r;
  }

  lemma {:induction false} AllLists(t: Tables, grams: seq<Str>, lists: seq<seq<nat>>, sorted: seq<seq<nat>>, r: seq<nat>)
    requires PairsOk(t.strs, t.names) && |lists| == |grams| == |sorted| > 0 && forall l :: l in sorted <==> l in lists
    requires forall k: nat, n: nat :: k < |lists| ==> (n in lists[k] <==> Has(t, n, grams[k]))
    requires forall n: nat :: n in r <==> forall k :: 0 <= k < |sorted| ==> n in sorted[k]
    ensures forall n: nat :: n in r <==> forall g :: g in grams ==> Has(t, n, g)
  {
    hide Has, PairsOk;
    forall n: nat ensures n in r <==> forall g :: g in grams ==> Has(t, n, g) {
      if n in r {
        forall k: nat | k < |lists| ensures Has(t, n, grams[k]) {
          assert lists[k] in sorted;
          var j :| 0 <= j < |sorted| && sorted[j] == lists[k];
          assert n in sorted[j];
        }
      } else {
        var j :| 0 <= j < |sorted| && n !in sorted[j];
        assert sorted[j] in lists;
        var k :| 0 <= k < |lists| && lists[k] == sorted[j];
        assert !Has(t, n, grams[k]) && grams[k] in grams;
      }
    }
  }

  method Holds(s: Str, q: Str) returns (r: bool)
    ensures r == Contains(s, q)
  {
    var i := 0;
    while i + |q| <= |s|
      invariant 0 <= i && forall k: nat :: k < i ==> !OccursAt(s, q, k)
    {
      if OccursAt(s, q, i) { return true; }
      i := i + 1;
    }
    return false;
  }

  /** The candidate names of Fuzzy for a lower-cased, non-empty query: exactly those whose lower-case form contains it. */
  method Matching(t: Tables, q: Str) returns (r: set<nat>)
    requires GramsIndexed(t) && q != [] && Utf8(q) && forall n :: 0 <= n < |t.names| ==> Utf8(LowerNames(t)[n])
    ensures forall n: nat :: n in r <==> n < |t.names| && Contains(LowerNames(t)[n], q)
  {
    hide IsDict, Trigrams, Contains, Utf8, LowerNames;
    var grams := Trigrams(q);
    var candidates: seq<nat>;
    if |grams| == 0 {
      candidates := seq(|t.names|, i => i);
      forall n: nat | n < |t.names| ensures n in candidates { assert candidates[n] == n; }
    } else {
      candidates := IntersectNames(t, grams);
      forall n: nat | n < |t.names| && Contains(LowerNames(t)[n], q) ensures n in candidates {
        forall g | g in grams ensures g in Trigrams(LowerNames(t)[n]) { ContainedTrigrams(LowerNames(t)[n], q, g); }
      }
      assert forall n: nat | n in candidates :: Has(t, n, grams[0]);
    }
    r := {};
    for i := 0 to |candidates|
      invariant forall n: nat :: n in r <==> n in candidates[..i] && n < |t.names| && Contains(LowerNames(t)[n], q)
    {
      assert candidates[..i + 1] == candidates[..i] + [candidates[i]];
      assert candidates[i] in candidates;
      var found := Holds(LowerNames(t)[candidates[i]], q);
      if found { r := r + {candidates[i]}; }
    }
    assert candidates[..|candidates|] == candidates;
  }

  /** Lower-casing gives well-formed text. */
  ghost predicate Lowers(lang: Language)
  {
    forall s :: Utf8(lang.lower(s))
  }

  /** Some declaration has the name. */
  ghost predicate Declared(files: seq<File>, slots: seq<Slot>, name: Str)
  {
    exists g :: 0 <= g < |slots| && Declares(files, slots[g]) && NameAt(files, slots[g]) == name
  }

  /** Name: a distinct name. */
  function NameOf(t: Tables, n: nat): Str
    requires PairsOk(t.strs, t.names) && n < |t.names|
  {
    View(t.strs, t.names[n].first)
  }

  /** The names are those of the declarations, each with its lower-case form. */
  lemma {:induction false} NamesAre(lang: Language, files: seq<File>, slots: seq<Slot>, t: Tables) returns (names: seq<Str>)
    requires NamesIndexed(lang, files, slots, t) && PairsOk(t.strs, t.names)
    ensures |names| == |t.names| && forall n: nat :: n < |names| ==> NameOf(t, n) == names[n] && LowerNames(t)[n] == lang.lower(names[n])
    ensures forall name :: name in names <==> Declared(files, slots, name)
  {
    hide Declares, NameAt;
    names :| |names| == |t.names| && AreNames(files, slots, |slots|, names)
      && forall i :: 0 <= i < |names| ==> IsPair(t.strs, t.names[i], names[i], lang.lower(names[i]));
    forall n: nat | n < |names| ensures NameOf(t, n) == names[n] && LowerNames(t)[n] == lang.lower(names[n]) {
      assert IsPair(t.strs, t.names[n], names[n], lang.lower(names[n]));
    }
    assert AreNames(files, slots, |slots|, names);
  }

  lemma {:induction false} SearchHasNames(lang: Language, files: seq<File>, slots: seq<Slot>, t: Tables)
    requires Searchable(lang, files, slots, t)
    ensures GramsIndexed(t) && NamesIndexed(lang, files, slots, t) && PairsOk(t.strs, t.names)
  {
  }

  /** Fuzzy's names for a query: those of exactly the declarations whose lower-case name contains it. */
  method FuzzyNames(t: Tables, ghost lang: Language, ghost files: seq<File>, ghost slots: seq<Slot>, q: Str) returns (r: set<Str>)
    requires Searchable(lang, files, slots, t) && Lowers(lang) && q != [] && Utf8(q)
    ensures forall name :: name in r <==> Declared(files, slots, name) && Contains(lang.lower(name), q)
  {
    hide *;
    SearchHasNames(lang, files, slots, t);
    ghost var names := NamesAre(lang, files, slots, t);
    forall s ensures Utf8(lang.lower(s)) { LowersAll(lang, s); }
    var found := Matching(t, q);
    r := {};
    for n := 0 to |t.names|
      invariant forall name :: name in r <==> exists k: nat :: k < n && names[k] == name && k in found
    {
      if n in found { r := r + {NameOf(t, n)}; }
    }
    forall name ensures name in r <==> Declared(files, slots, name) && Contains(lang.lower(name), q) {
      if Declared(files, slots, name) && Contains(lang.lower(name), q) {
        var k :| 0 <= k < |names| && names[k] == name;
        assert k in found;
      }
    }
  }

  lemma {:induction false} LowersAll(lang: Language, s: Str)
    requires Lowers(lang)
    ensures Utf8(lang.lower(s))
  {
  }
}
