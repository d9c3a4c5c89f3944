/** What a segment's string section holds: every text of the facts and of their search terms at most once. */
module SegmentTexts {
  import opened Common
  import opened Order
  import opened SegmentRecords
  import opened SegmentTables
  import opened SegmentSearch

  predicate SymbolText(x: Symbol, s: Str)
  {
    s == x.name || s == x.receiver || s == x.signature || s == x.doc || s == x.paramList
  }

  predicate ImportText(x: Import, s: Str)
  {
    s == x.path || s == x.name || exists k :: 0 <= k < |x.names| && (s == x.names[k].name || s == x.names[k].alias)
  }

  predicate RefText(x: Ref, s: Str)
  {
    s == x.name || s == x.qualifier || s == x.argTypes
  }

  predicate ExportText(x: Export, s: Str)
  {
    s == x.name || s == x.source || s == x.sourceName
  }

  predicate HintText(x: Hint, s: Str)
  {
    s == x.name || s == x.kind
  }

  /** A string among a file's facts. */
  predicate FactText(f: File, s: Str)
  {
    || s == f.path || s == f.package || s == f.pkgName || s == f.lang || s == f.parseErr
    || (exists k :: 0 <= k < |f.symbols| && SymbolText(f.symbols[k], s))
    || (exists k :: 0 <= k < |f.imports| && ImportText(f.imports[k], s))
    || (exists k :: 0 <= k < |f.refs| && RefText(f.refs[k], s))
    || (exists k :: 0 <= k < |f.exports| && ExportText(f.exports[k], s))
    || (exists k :: 0 <= k < |f.hints| && HintText(f.hints[k], s))
  }

  /** A term of a symbol, its name in either form, or a trigram of its lower-case name. */
  predicate SearchText(lang: Language, f: File, x: Symbol, s: Str)
  {
    s == x.name || s == lang.lower(x.name) || s in lang.weights(f, x) || s in Trigrams(lang.lower(x.name))
  }

  predicate TermText(lang: Language, f: File, s: Str)
  {
    exists k :: 0 <= k < |f.symbols| && SearchText(lang, f, f.symbols[k], s)
  }

  /** A text of one of the files. */
  ghost predicate IsText(lang: Language, files: seq<File>, s: Str)
  {
    exists f :: f in files && (FactText(f, s) || TermText(lang, f, s))
  }

  ghost function Texts(lang: Language, files: seq<File>): iset<Str>
  {
    iset s | IsText(lang, files, s)
  }

  function TotalBytes(words: seq<Str>): nat
  {
    if words == [] then 0 else TotalBytes(words[..|words| - 1]) + |words[|words| - 1]|
  }

  /** The files' different texts come to 2 GiB or more. */
  ghost predicate TooMuch(lang: Language, files: seq<File>)
  {
    exists words: seq<Str> :: Distinct(words) && TotalBytes(words) >= 0x8000_0000 && forall w :: w in words ==> IsText(lang, files, w)
  }

  // ---------------------------------------------------------------------------------------------
  // What may be interned

  ghost predicate Allows(mine: iset<Str>, files: seq<File>)
  {
    forall f, s :: f in files && FactText(f, s) ==> s in mine
  }

  ghost predicate AllowsTerms(mine: iset<Str>, lang: Language, files: seq<File>)
  {
    forall f, s :: f in files && TermText(lang, f, s) ==> s in mine
  }

  lemma {:induction false} TextsAllowed(lang: Language, files: seq<File>)
    ensures Allows(Texts(lang, files), files) && AllowsTerms(Texts(lang, files), lang, files)
  {
    hide FactText, TermText;
    var mine := Texts(lang, files);
    forall f, s | f in files && FactText(f, s) ensures s in mine { assert IsText(lang, files, s); }
    forall f, s | f in files && TermText(lang, f, s) ensures s in mine { assert IsText(lang, files, s); }
  }

  /** The words are interned, once each, and come to n bytes. */
  ghost predicate Spells(words: seq<Str>, interns: map<Str, StrRef>, n: nat, mine: iset<Str>)
  {
    Distinct(words) && TotalBytes(words) == n && forall w :: w in words ==> w in interns && w in mine
  }

  lemma {:induction false} SpellsMore(words: seq<Str>, interns: map<Str, StrRef>, n: nat, mine: iset<Str>, s: Str, r: StrRef)
    requires Spells(words, interns, n, mine) && s !in interns && s in mine
    ensures Spells(words + [s], interns[s := r], n + |s|, mine)
  {
    assert (words + [s])[..|words|] == words;
  }

  lemma {:induction false} SymbolTexts(mine: iset<Str>, files: seq<File>, i: nat, k: nat)
    requires Allows(mine, files) && i < |files| && k < |files[i].symbols|
    ensures var x := files[i].symbols[k]; x.name in mine && x.receiver in mine && x.signature in mine && x.doc in mine && x.paramList in mine
  {
    var f, x := files[i], files[i].symbols[k];
    assert SymbolText(x, x.name) && SymbolText(x, x.receiver) && SymbolText(x, x.signature) && SymbolText(x, x.doc) && SymbolText(x, x.paramList);
    assert FactText(f, x.name) && FactText(f, x.receiver) && FactText(f, x.signature) && FactText(f, x.doc) && FactText(f, x.paramList);
  }

  lemma {:induction false} ImportTexts(mine: iset<Str>, files: seq<File>, i: nat, k: nat)
    requires Allows(mine, files) && i < |files| && k < |files[i].imports|
    ensures var x := files[i].imports[k]; x.path in mine && x.name in mine
    ensures var x := files[i].imports[k]; forall l :: 0 <= l < |x.names| ==> x.names[l].name in mine && x.names[l].alias in mine
  {
    var f, x := files[i], files[i].imports[k];
    assert ImportText(x, x.path) && ImportText(x, x.name);
    assert FactText(f, x.path) && FactText(f, x.name);
    forall l | 0 <= l < |x.names| ensures x.names[l].name in mine && x.names[l].alias in mine {
      assert ImportText(x, x.names[l].name) && ImportText(x, x.names[l].alias);
      assert FactText(f, x.names[l].name) && FactText(f, x.names[l].alias);
    }
  }

  lemma {:induction false} RefTexts(mine: iset<Str>, files: seq<File>, i: nat, k: nat)
    requires Allows(mine, files) && i < |files| && k < |files[i].refs|
    ensures var x := files[i].refs[k]; x.name in mine && x.qualifier in mine && x.argTypes in mine
  {
    var f, x := files[i], files[i].refs[k];
    assert RefText(x, x.name) && RefText(x, x.qualifier) && RefText(x, x.argTypes);
    assert FactText(f, x.name) && FactText(f, x.qualifier) && FactText(f, x.argTypes);
  }

  lemma {:induction false} ExportTexts(mine: iset<Str>, files: seq<File>, i: nat, k: nat)
    requires Allows(mine, files) && i < |files| && k < |files[i].exports|
    ensures var x := files[i].exports[k]; x.name in mine && x.source in mine && x.sourceName in mine
  {
    var f, x := files[i], files[i].exports[k];
    assert ExportText(x, x.name) && ExportText(x, x.source) && ExportText(x, x.sourceName);
    assert FactText(f, x.name) && FactText(f, x.source) && FactText(f, x.sourceName);
  }

  lemma {:induction false} HintTexts(mine: iset<Str>, files: seq<File>, i: nat, k: nat)
    requires Allows(mine, files) && i < |files| && k < |files[i].hints|
    ensures var x := files[i].hints[k]; x.name in mine && x.kind in mine
  {
    var f, x := files[i], files[i].hints[k];
    assert HintText(x, x.name) && HintText(x, x.kind);
    assert FactText(f, x.name) && FactText(f, x.kind);
  }

  lemma {:induction false} FileTexts(mine: iset<Str>, files: seq<File>, i: nat)
    requires Allows(mine, files) && i < |files|
    ensures var f := files[i]; f.path in mine && f.package in mine && f.pkgName in mine && f.lang in mine && f.parseErr in mine
  {
    var f := files[i];
    assert FactText(f, f.path) && FactText(f, f.package) && FactText(f, f.pkgName) && FactText(f, f.lang) && FactText(f, f.parseErr);
  }

  // ---------------------------------------------------------------------------------------------
  // Search

  lemma {:induction false} DeclaredTexts(mine: iset<Str>, lang: Language, files: seq<File>, slot: Slot, s: Str)
    requires AllowsTerms(mine, lang, files) && Declares(files, slot)
    requires SearchText(lang, files[slot.file], files[slot.file].symbols[slot.local], s)
    ensures s in mine
  {
    assert TermText(lang, files[slot.file], s);
  }

  lemma {:induction false} TermTexts(mine: iset<Str>, lang: Language, files: seq<File>, slots: seq<Slot>, lists: map<Str, seq<PostRec>>)
    requires AllowsTerms(mine, lang, files) && Gathered(lists, TermMarks(lang, files, slots), |slots|)
    ensures forall key :: key in lists ==> key in mine
  {
    hide Listing, TermMarks;
    forall key | key in lists ensures key in mine {
      assert ListAt(lists, key) == Listing(TermMarks(lang, files, slots), key, |slots|);
      TermListing(lang, files, slots, key, |slots|);
      var x := lists[key][0];
      assert x in lists[key];
      DeclaredTexts(mine, lang, files, slots[x.sym], key);
    }
  }

  lemma {:induction false} NameTexts(mine: iset<Str>, lang: Language, files: seq<File>, slots: seq<Slot>, names: seq<Str>)
    requires AllowsTerms(mine, lang, files) && AreNames(files, slots, |slots|, names)
    ensures forall i :: 0 <= i < |names| ==> names[i] in mine && lang.lower(names[i]) in mine
    ensures forall i, g :: 0 <= i < |names| && g in Trigrams(lang.lower(names[i])) ==> g in mine
  {
    hide Less, Trigrams;
    forall i | 0 <= i < |names|
      ensures names[i] in mine && lang.lower(names[i]) in mine && forall g :: g in Trigrams(lang.lower(names[i])) ==> g in mine
    {
      var g :| 0 <= g < |slots| && Declares(files, slots[g]) && NameAt(files, slots[g]) == names[i];
      DeclaredTexts(mine, lang, files, slots[g], names[i]);
      DeclaredTexts(mine, lang, files, slots[g], lang.lower(names[i]));
      forall s | s in Trigrams(lang.lower(names[i])) ensures s in mine { DeclaredTexts(mine, lang, files, slots[g], s); }
    }
  }

  lemma {:induction false} GramTexts(mine: iset<Str>, lower: seq<Str>, lists: map<Str, seq<nat>>)
    requires Gathered(lists, GramMarks(lower), |lower|)
    requires forall i, g :: 0 <= i < |lower| && g in Trigrams(lower[i]) ==> g in mine
    ensures forall key :: key in lists ==> key in mine
  {
    hide Listing, GramMarks, Trigrams;
    forall key | key in lists ensures key in mine {
      assert ListAt(lists, key) == Listing(GramMarks(lower), key, |lower|);
      GramListing(lower, key, |lower|);
      assert lists[key][0] in lists[key];
    }
  }
}
