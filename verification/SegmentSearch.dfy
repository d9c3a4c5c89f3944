/**
 The search sections: for every term the symbols it describes, and for every trigram the names it occurs in.
 */
module SegmentSearch {
  import opened Common
  import opened Order
  import opened Sorting
  import opened SegmentRecords
  import opened SegmentTables

  /** Embedded types are structure, not declarations: search leaves them out. */
  const EMBED: nat := 7

  /**
   What the outside decides: lower-casing, the terms of a symbol with the bits of their weights, the bits of a symbol's length
   and of the sum of all lengths.
   */
  datatype Language = Language(lower: Str -> Str, weights: (File, Symbol) -> map<Str, nat>, length: map<Str, nat> -> nat,
                               total: seq<nat> -> nat)

  // ---------------------------------------------------------------------------------------------
  // Characters

  /** How many bytes the character that starts with b has; 0 when none starts with it. */
  function Width(b: octet): nat
  {
    if b < 0x80 as char then 1
    else if b < 0xC0 as char then 0
    else if b < 0xE0 as char then 2
    else if b < 0xF0 as char then 3
    else if b < 0xF8 as char then 4
    else 0
  }

  predicate Continues(b: octet)
  {
    0x80 as char <= b < 0xC0 as char
  }

  /** s starts with a whole character. */
  predicate Starts(s: Str)
  {
    s != [] && 0 < Width(s[0]) <= |s| && forall k :: 1 <= k < Width(s[0]) ==> Continues(s[k])
  }

  /** The length of the first character; a byte that starts none counts as one. */
  function FirstWidth(s: Str): (w: nat)
    requires s != []
    ensures 0 < w <= |s|
  {
    if Starts(s) then Width(s[0]) else 1
  }

  predicate Utf8(s: Str)
  {
    s == [] || (Starts(s) && Utf8(s[FirstWidth(s)..]))
  }

  function Characters(s: Str): seq<Str>
  {
    if s == [] then [] else [s[..FirstWidth(s)]] + Characters(s[FirstWidth(s)..])
  }

  /** The runs of three characters, in order. */
  function Trigrams(s: Str): (g: seq<Str>)
  {
    var c := Characters(s);
    if |c| < 3 then [] else seq(|c| - 2, i requires 0 <= i < |c| - 2 => c[i] + c[i + 1] + c[i + 2])
  }

  predicate OccursAt(s: Str, q: Str, i: nat)
  {
    i + |q| <= |s| && s[i..i + |q|] == q
  }

  /** strings.Contains. */
  ghost predicate Contains(s: Str, q: Str)
  {
    exists i: nat :: OccursAt(s, q, i)
  }

  /** The characters of q are those of s from the j-th on. */
  ghost predicate CharactersAt(s: Str, q: Str, j: nat)
  {
    var c, d := Characters(s), Characters(q);
    j + |d| <= |c| && forall k :: 0 <= k < |d| ==> c[j + k] == d[k]
  }

  lemma {:induction false} PrefixCharacters(s: Str, q: Str)
    requires Utf8(q) && OccursAt(s, q, 0)
    ensures CharactersAt(s, q, 0)
  {
    if q != [] {
      var w := FirstWidth(q);
      assert forall k :: 0 <= k < |q| ==> s[k] == q[k];
      assert FirstWidth(s) == w && s[..w] == q[..w];
      assert s[w..][0..|q| - w] == q[w..];
      PrefixCharacters(s[w..], q[w..]);
    }
  }

  lemma {:induction false} NoStartInside(s: Str, i: nat)
    requires Starts(s) && 0 < i < FirstWidth(s)
    ensures Width(s[i]) == 0
  {
    assert Continues(s[i]);
  }

  /** Where a text occurs, its characters are characters there: no character of UTF-8 starts inside another. */
  lemma {:induction false} ContainedCharacters(s: Str, q: Str, i: nat) returns (j: nat)
    requires Utf8(s) && Utf8(q) && q != [] && OccursAt(s, q, i)
    ensures CharactersAt(s, q, j)
  {
    if i == 0 {
      PrefixCharacters(s, q);
      j := 0;
    } else {
      var w := FirstWidth(s);
      assert s[i] == q[0];
      if i < w {
        NoStartInside(s, i);
        assert false;
      }
      assert s[w..][i - w..i - w + |q|] == q;
      var rest := ContainedCharacters(s[w..], q, i - w);
      j := rest + 1;
    }
  }

  /** A containing text has all the trigrams of what it contains. */
  lemma {:induction false} ContainedTrigrams(s: Str, q: Str, g: Str)
    requires Utf8(s) && Utf8(q) && Contains(s, q) && g in Trigrams(q)
    ensures g in Trigrams(s)
  {
    hide Characters, Contains, Utf8;
    var i := Occurrence(s, q);
    assert q != [] by { if q == [] { NoTrigrams(); } }
    var j := ContainedCharacters(s, q, i);
    TrigramsFollow(s, q, j);
    var k :| 0 <= k < |Trigrams(q)| && Trigrams(q)[k] == g;
    assert Trigrams(s)[j + k] == g;
  }

  lemma {:induction false} Occurrence(s: Str, q: Str) returns (i: nat)
    requires Contains(s, q)
    ensures OccursAt(s, q, i)
  {
    i :| OccursAt(s, q, i);
  }

  lemma {:induction false} NoTrigrams()
    ensures Trigrams([]) == []
  {
  }

  lemma {:induction false} TrigramsFollow(s: Str, q: Str, j: nat)
    requires CharactersAt(s, q, j)
    ensures Trigrams(q) != [] ==> j + |Trigrams(q)| <= |Trigrams(s)|
    ensures forall k :: 0 <= k < |Trigrams(q)| ==> j + k < |Trigrams(s)| && Trigrams(s)[j + k] == Trigrams(q)[k]
  {
    hide Characters;
    var c, d := Characters(s), Characters(q);
    forall k | 0 <= k < |Trigrams(q)| ensures j + k < |Trigrams(s)| && Trigrams(s)[j + k] == Trigrams(q)[k] {
      assert c[j + k] == d[k] && c[j + k + 1] == c[j + (k + 1)] == d[k + 1] && c[j + k + 2] == c[j + (k + 2)] == d[k + 2];
    }
  }

  // ---------------------------------------------------------------------------------------------
  // Gathering

  /** What the first n items have under a key, in order. */
  function Listing<T>(marks: seq<map<Str, T>>, key: Str, n: nat): seq<T>
    requires n <= |marks|
  {
    if n == 0 then [] else Listing(marks, key, n - 1) + if key in marks[n - 1] then [marks[n - 1][key]] else []
  }

  function ListAt<T>(lists: map<Str, seq<T>>, key: Str): seq<T>
  {
    if key in lists then lists[key] else []
  }

  /** The lists hold, under every key, what the first n items have there, and no other key. */
  ghost predicate Gathered<T(!new)>(lists: map<Str, seq<T>>, marks: seq<map<Str, T>>, n: nat)
    requires n <= |marks|
  {
    && (forall key :: ListAt(lists, key) == Listing(marks, key, n))
    && (forall key :: key in lists ==> lists[key] != [])
  }

  lemma {:induction false} AtUpdated<T>(lists: map<Str, seq<T>>, key: Str, v: seq<T>)
    ensures forall k :: ListAt(lists[key := v], k) == if k == key then v else ListAt(lists, k)
  {
    var after := lists[key := v];
    forall k ensures ListAt(after, k) == if k == key then v else ListAt(lists, k) {
      if k != key { assert k in after <==> k in lists; }
    }
  }

  /** Item g has been added under some keys. */
  ghost predicate Gathering<T(!new)>(lists: map<Str, seq<T>>, marks: seq<map<Str, T>>, g: nat, done: set<Str>)
    requires g < |marks|
  {
    && (forall key :: key in lists ==> lists[key] != [])
    && (forall key :: ListAt(lists, key) == Listing(marks, key, if key in done then g + 1 else g))
  }

  lemma {:induction false} GatherOne<T(!new)>(lists: map<Str, seq<T>>, marks: seq<map<Str, T>>, g: nat, done: set<Str>, key: Str)
    requires g < |marks| && Gathering(lists, marks, g, done) && key in marks[g] && key !in done
    ensures Gathering(lists[key := ListAt(lists, key) + [marks[g][key]]], marks, g, done + {key})
  {
    hide ListAt;
    AtUpdated(lists, key, ListAt(lists, key) + [marks[g][key]]);
    ListingStep(marks, key, g);
  }

  lemma {:induction false} GatheredAll<T(!new)>(lists: map<Str, seq<T>>, marks: seq<map<Str, T>>, g: nat, done: set<Str>)
    requires g < |marks| && Gathering(lists, marks, g, done) && done == marks[g].Keys
    ensures Gathered(lists, marks, g + 1)
  {
    hide ListAt, Listing;
    forall key ensures ListAt(lists, key) == Listing(marks, key, g + 1) { ListingStep(marks, key, g); }
  }

  lemma {:induction false} GatheringStarts<T(!new)>(lists: map<Str, seq<T>>, marks: seq<map<Str, T>>, g: nat)
    requires g < |marks| && Gathered(lists, marks, g)
    ensures Gathering(lists, marks, g, {})
  {
  }

  /** The postings of every key. */
  method Gather<T(!new)>(marks: seq<map<Str, T>>) returns (lists: map<Str, seq<T>>)
    ensures Gathered(lists, marks, |marks|)
  {
    hide ListAt, Gathered, Gathering;
    lists := map[];
    NothingGathered(marks);
    for g := 0 to |marks|
      invariant Gathered(lists, marks, g)
    {
      GatheringStarts(lists, marks, g);
      var todo := marks[g].Keys;
      ghost var done: set<Str> := {};
      while todo != {}
        invariant done + todo == marks[g].Keys && done !! todo && Gathering(lists, marks, g, done)
      {
        var key :| key in todo;
        GatherOne(lists, marks, g, done, key);
        lists := lists[key := ListAt(lists, key) + [marks[g][key]]];
        todo, done := todo - {key}, done + {key};
      }
      GatheredAll(lists, marks, g, done);
    }
  }

  lemma {:induction false} NothingGathered<T(!new)>(marks: seq<map<Str, T>>)
    ensures Gathered(map[], marks, 0)
  {
  }

  /** An item without the key adds nothing. */
  lemma {:induction false} ListingStep<T>(marks: seq<map<Str, T>>, key: Str, g: nat)
    requires g < |marks|
    ensures key !in marks[g] ==> Listing(marks, key, g + 1) == Listing(marks, key, g)
    ensures key in marks[g] ==> Listing(marks, key, g + 1) == Listing(marks, key, g) + [marks[g][key]]
  {
  }

  /** Each text's trigrams, marked with the text's index. */
  function GramMarks(texts: seq<Str>): (marks: seq<map<Str, nat>>)
    ensures |marks| == |texts|
  {
    seq(|texts|, i requires 0 <= i < |texts| => map g | g in Trigrams(texts[i]) :: i)
  }

  lemma {:induction false} GramMarked(texts: seq<Str>, i: nat, g: Str)
    requires i < |texts|
    ensures g in GramMarks(texts)[i] <==> g in Trigrams(texts[i])
    ensures g in GramMarks(texts)[i] ==> GramMarks(texts)[i][g] == i
  {
    hide Trigrams;
  }

  /** The listed texts ascend, and are those that have the trigram. */
  lemma {:induction false} GramListing(texts: seq<Str>, key: Str, n: nat)
    requires n <= |texts|
    ensures Increasing(Listing(GramMarks(texts), key, n))
    ensures forall i: nat :: i in Listing(GramMarks(texts), key, n) <==> i < n && key in Trigrams(texts[i])
  {
    hide Trigrams, GramMarks;
    if n > 0 {
      GramListing(texts, key, n - 1);
      GramMarked(texts, n - 1, key);
      var front := Listing(GramMarks(texts), key, n - 1);
      assert forall k :: 0 <= k < |front| ==> front[k] in front;
      ListingStep(GramMarks(texts), key, n - 1);
    }
  }

  ghost predicate Increasing(s: seq<nat>)
  {
    forall i, j :: 0 <= i < j < |s| ==> s[i] < s[j]
  }

  /** The trigram postings: each text is added once under each of its trigrams. */
  method GatherTrigrams(texts: seq<Str>) returns (lists: map<Str, seq<nat>>)
    ensures Gathered(lists, GramMarks(texts), |texts|)
  {
    hide Trigrams, GramMarks, ListAt, Gathered, Gathering;
    ghost var marks := GramMarks(texts);
    lists := map[];
    NothingGathered(marks);
    for i := 0 to |texts|
      invariant Gathered(lists, marks, i)
    {
      GatheringStarts(lists, marks, i);
      var grams := Trigrams(texts[i]);
      ghost var done: set<Str> := {};
      for k := 0 to |grams|
        invariant Gathering(lists, marks, i, done) && forall g :: g in done <==> g in grams[..k]
      {
        var g := grams[k];
        assert grams[..k + 1] == grams[..k] + [g];
        var was := ListAt(lists, g);
        AddOnce(texts, lists, g, i, done);
        if was == [] || was[|was| - 1] != i {
          GatherOne(lists, marks, i, done, g);
          lists := lists[g := was + [i]];
        }
        done := done + {g};
      }
      assert grams[..|grams|] == grams;
      assert done == marks[i].Keys by {
        forall g ensures g in done <==> g in marks[i] { GramMarked(texts, i, g); }
      }
      GatheredAll(lists, marks, i, done);
    }
  }

  /** A text with the trigram is last in its list exactly when it was added there. */
  lemma {:induction false} AddOnce(texts: seq<Str>, lists: map<Str, seq<nat>>, g: Str, i: nat, done: set<Str>)
    requires i < |texts| && g in Trigrams(texts[i]) && Gathering(lists, GramMarks(texts), i, done)
    ensures var was := ListAt(lists, g);
      && g in GramMarks(texts)[i] && GramMarks(texts)[i][g] == i
      && (g in done <==> was != [] && was[|was| - 1] == i)
      && (g in done ==> done + {g} == done)
  {
    hide Trigrams, GramMarks, Listing, ListAt;
    GramListing(texts, g, i);
    GramMarked(texts, i, g);
    ListingStep(GramMarks(texts), g, i);
    var front := Listing(GramMarks(texts), g, i);
    if front != [] { assert front[|front| - 1] in front; }
  }

  /** A mark is listed exactly when an item has it under the key. */
  lemma {:induction false} ListingHas<T>(marks: seq<map<Str, T>>, key: Str, n: nat, x: T)
    requires n <= |marks|
    ensures x in Listing(marks, key, n) <==> exists g :: 0 <= g < n && key in marks[g] && marks[g][key] == x
  {
    if n > 0 { ListingHas(marks, key, n - 1, x); }
  }

  // ---------------------------------------------------------------------------------------------
  // Dictionaries

  /** Some item has x under some key. */
  ghost predicate Marked<T(!new)>(marks: seq<map<Str, T>>, x: T)
  {
    exists g, key :: 0 <= g < |marks| && key in marks[g] && marks[g][key] == x
  }

  /** Entry i's range of the list is what the items have under its key. */
  ghost predicate EntryLists<T(!new)>(strs: Str, r: DictRec, list: seq<T>, marks: seq<map<Str, T>>)
  {
    && EntryOk(strs, r, |list|) && list[r.off..r.off + r.n] == Listing(marks, View(strs, r.key), |marks|)
    && r.n > 0
  }

  /** The dictionary has exactly the items' keys, ascending, each with the range of what the items have under it. */
  ghost predicate IsDict<T(!new)>(strs: Str, dict: seq<DictRec>, list: seq<T>, marks: seq<map<Str, T>>)
  {
    && DictOk(strs, dict, |list|)
    && (forall i :: 0 <= i < |dict| ==> EntryLists(strs, dict[i], list, marks))
    && (forall key :: Listing(marks, key, |marks|) != [] ==> exists i :: 0 <= i < |dict| && Holds(strs, dict[i].key, key))
    && forall k :: 0 <= k < |list| ==> Marked(marks, list[k])
  }

  lemma {:induction false} IsDictIsOk<T(!new)>(strs: Str, dict: seq<DictRec>, list: seq<T>, marks: seq<map<Str, T>>)
    requires IsDict(strs, dict, list, marks)
    ensures DictOk(strs, dict, |list|)
  {
  }

  // ---------------------------------------------------------------------------------------------
  // What the search sections say

  function WeightsAt(lang: Language, files: seq<File>, s: Slot): map<Str, nat>
  {
    if s.file < |files| && s.local < |files[s.file].symbols| then lang.weights(files[s.file], files[s.file].symbols[s.local]) else map[]
  }

  predicate Declares(files: seq<File>, s: Slot)
  {
    s.file < |files| && s.local < |files[s.file].symbols| && files[s.file].symbols[s.local].kind != EMBED
  }

  function NameAt(files: seq<File>, s: Slot): Str
  {
    if s.file < |files| && s.local < |files[s.file].symbols| then files[s.file].symbols[s.local].name else []
  }

  /** A declaration's terms, as postings. */
  function TermMarks(lang: Language, files: seq<File>, slots: seq<Slot>): (marks: seq<map<Str, PostRec>>)
    ensures |marks| == |slots|
  {
    seq(|slots|, g requires 0 <= g < |slots| => MarksAt(lang, files, slots[g], g))
  }

  function MarksAt(lang: Language, files: seq<File>, s: Slot, g: nat): (m: map<Str, PostRec>)
    ensures Declares(files, s) ==> m.Keys == WeightsAt(lang, files, s).Keys
    ensures forall term :: term in m ==> Declares(files, s) && m[term] == PostRec(g, WeightsAt(lang, files, s)[term])
  {
    if Declares(files, s) then map term | term in WeightsAt(lang, files, s) :: PostRec(g, WeightsAt(lang, files, s)[term]) else map[]
  }

  /** A term's postings ascend, and are the declarations with the term and its weights there. */
  lemma {:induction false} TermListing(lang: Language, files: seq<File>, slots: seq<Slot>, term: Str, n: nat)
    requires n <= |slots|
    ensures var list := Listing(TermMarks(lang, files, slots), term, n);
      && (forall i, j :: 0 <= i < j < |list| ==> list[i].sym < list[j].sym)
      && forall x :: x in list <==>
           x.sym < n && Declares(files, slots[x.sym]) && term in WeightsAt(lang, files, slots[x.sym])
           && x.weight == WeightsAt(lang, files, slots[x.sym])[term]
  {
    hide WeightsAt, Declares;
    if n > 0 {
      TermListing(lang, files, slots, term, n - 1);
      var marks := TermMarks(lang, files, slots);
      assert marks[n - 1] == MarksAt(lang, files, slots[n - 1], n - 1);
      var front := Listing(marks, term, n - 1);
      assert forall k :: 0 <= k < |front| ==> front[k] in front;
      ListingStep(marks, term, n - 1);
    }
  }

  /** The lengths of the declarations among the first n symbols. */
  function Lengths(lang: Language, files: seq<File>, slots: seq<Slot>, n: nat): seq<nat>
    requires n <= |slots|
  {
    if n == 0 then []
    else
      Lengths(lang, files, slots, n - 1)
      + if Declares(files, slots[n - 1]) then [lang.length(WeightsAt(lang, files, slots[n - 1]))] else []
  }

  /** The ascending names of the declarations among the first n symbols. */
  ghost predicate AreNames(files: seq<File>, slots: seq<Slot>, n: nat, names: seq<Str>)
    requires n <= |slots|
  {
    && (forall i, j :: 0 <= i < j < |names| ==> Less(names[i], names[j]))
    && (forall g :: 0 <= g < n && Declares(files, slots[g]) ==> NameAt(files, slots[g]) in names)
    && (forall i :: 0 <= i < |names| ==> exists g :: 0 <= g < n && Declares(files, slots[g]) && NameAt(files, slots[g]) == names[i])
  }

  /** The statistics and lengths, and the postings of every term. */
  ghost predicate Ranked(lang: Language, files: seq<File>, slots: seq<Slot>, t: Tables)
  {
    && t.docs == |Lengths(lang, files, slots, |slots|)| && t.total == lang.total(Lengths(lang, files, slots, |slots|))
    && |t.docLen| == |slots|
    && (forall g :: 0 <= g < |slots| ==>
          t.docLen[g] == if Declares(files, slots[g]) then lang.length(WeightsAt(lang, files, slots[g])) else 0)
    && IsDict(t.strs, t.terms, t.posts, TermMarks(lang, files, slots))
  }

  /** The lower-case form of every name. */
  function LowerNames(t: Tables): (texts: seq<Str>)
    requires PairsOk(t.strs, t.names)
    ensures |texts| == |t.names|
  {
    seq(|t.names|, i requires 0 <= i < |t.names| => View(t.strs, t.names[i].second))
  }

  /** Every name is listed under exactly its trigrams. */
  ghost predicate GramsIndexed(t: Tables)
  {
    PairsOk(t.strs, t.names) && IsDict(t.strs, t.tris, t.triPost, GramMarks(LowerNames(t)))
  }

  /** The names of all declarations with their lower-case forms. */
  ghost predicate NamesIndexed(lang: Language, files: seq<File>, slots: seq<Slot>, t: Tables)
  {
    exists names: seq<Str> ::
      && |names| == |t.names| && AreNames(files, slots, |slots|, names)
      && forall i :: 0 <= i < |names| ==> IsPair(t.strs, t.names[i], names[i], lang.lower(names[i]))
  }

  ghost predicate Searchable(lang: Language, files: seq<File>, slots: seq<Slot>, t: Tables)
  {
    Ranked(lang, files, slots, t) && NamesIndexed(lang, files, slots, t) && GramsIndexed(t)
  }

  // ---------------------------------------------------------------------------------------------
  // Weighing every declaration

  lemma {:induction false} NameAdded(files: seq<File>, slots: seq<Slot>, g: nat, names: seq<Str>)
    requires g < |slots| && AreNames(files, slots, g, names)
    requires forall i, j :: 0 <= i < j < |slots| ==> AtMost(NameAt(files, slots[i]), NameAt(files, slots[j]))
    ensures var name := NameAt(files, slots[g]);
      if !Declares(files, slots[g]) || (names != [] && names[|names| - 1] == name) then AreNames(files, slots, g + 1, names)
      else AreNames(files, slots, g + 1, names + [name])
  {
    hide Less, AtMost, Declares, NameAt;
    var name := NameAt(files, slots[g]);
    if Declares(files, slots[g]) && !(names != [] && names[|names| - 1] == name) {
      var more := names + [name];
      forall i, j | 0 <= i < j < |more| ensures Less(more[i], more[j]) {
        if j == |names| { NameIsAbove(files, slots, g, names, i); }
      }
    }
  }

  lemma {:induction false} NameIsAbove(files: seq<File>, slots: seq<Slot>, g: nat, names: seq<Str>, i: nat)
    requires g < |slots| && AreNames(files, slots, g, names) && i < |names| && names[|names| - 1] != NameAt(files, slots[g])
    requires forall i, j :: 0 <= i < j < |slots| ==> AtMost(NameAt(files, slots[i]), NameAt(files, slots[j]))
    ensures Less(names[i], NameAt(files, slots[g]))
  {
    hide Less, Declares, NameAt;
    var last := names[|names| - 1];
    var h :| 0 <= h < g && Declares(files, slots[h]) && NameAt(files, slots[h]) == last;
    assert AtMost(NameAt(files, slots[h]), NameAt(files, slots[g]));
    if i < |names| - 1 { LessAtMost(names[i], last, NameAt(files, slots[g])); }
  }

  /** The terms, lengths and names of every declaration. */
  method Weigh(lang: Language, files: seq<File>, slots: seq<Slot>)
    returns (marks: seq<map<Str, PostRec>>, docLen: seq<nat>, lens: seq<nat>, names: seq<Str>)
    requires forall i, j :: 0 <= i < j < |slots| ==> AtMost(NameAt(files, slots[i]), NameAt(files, slots[j]))
    ensures marks == TermMarks(lang, files, slots) && lens == Lengths(lang, files, slots, |slots|) && |docLen| == |slots|
    ensures forall g :: 0 <= g < |slots| ==> docLen[g] == if Declares(files, slots[g]) then lang.length(WeightsAt(lang, files, slots[g])) else 0
    ensures AreNames(files, slots, |slots|, names)
  {
    hide AreNames, Less, AtMost, WeightsAt, Declares, NameAt, MarksAt;
    marks, docLen, lens, names := [], [], [], [];
    assert AreNames(files, slots, 0, names) by { NoNames(files, slots); }
    for g := 0 to |slots|
      invariant |marks| == |docLen| == g && lens == Lengths(lang, files, slots, g) && AreNames(files, slots, g, names)
      invariant forall k :: 0 <= k < g ==> marks[k] == MarksAt(lang, files, slots[k], k)
      invariant forall k :: 0 <= k < g ==> docLen[k] == if Declares(files, slots[k]) then lang.length(WeightsAt(lang, files, slots[k])) else 0
    {
      NameAdded(files, slots, g, names);
      marks := marks + [MarksAt(lang, files, slots[g], g)];
      if !Declares(files, slots[g]) {
        docLen := docLen + [0];
      } else {
        var n := lang.length(WeightsAt(lang, files, slots[g]));
        docLen, lens := docLen + [n], lens + [n];
        var name := NameAt(files, slots[g]);
        if names == [] || names[|names| - 1] != name { names := names + [name]; }
      }
    }
  }

  lemma {:induction false} NoNames(files: seq<File>, slots: seq<Slot>)
    ensures AreNames(files, slots, 0, [])
  {
  }
}
