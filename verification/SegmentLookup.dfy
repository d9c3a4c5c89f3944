/**
 Lookups on a segment by binary search, which find exactly what a scan of every record would.
 */
module SegmentLookup {
  import opened Common
  import opened Order
  import opened Search
  import opened SegmentRecords
  import opened SegmentTables
  import opened SegmentSearch

  /** The range of indexes at a key, by two binary searches: those at least at it and not above it. */
  method Range(n: nat, atLeast: nat --> bool, above: nat --> bool) returns (lo: nat, hi: nat)
    requires forall i: nat :: i < n ==> atLeast.requires(i) && above.requires(i)
    requires forall i: nat, j: nat :: i <= j < n && atLeast(i) ==> atLeast(j)
    requires forall i: nat, j: nat :: i <= j < n && above(i) ==> above(j)
    requires forall i: nat :: i < n && above(i) ==> atLeast(i)
    ensures lo <= hi <= n
    ensures forall g: nat :: g < n ==> (lo <= g < hi <==> atLeast(g) && !above(g))
  {
    lo := First(n, atLeast);
    var start := lo;
    var rest := (i: nat) requires start + i < n && above.requires(start + i) => above(start + i);
    var more := First(n - lo, rest);
    hi := lo + more;
    forall g: nat | lo <= g < n ensures above(g) <==> g >= hi {
      assert rest(g - lo) == above(g);
    }
  }

  /** What is above a stays above it further up. */
  lemma {:induction false} Upward(a: string, b: string, c: string)
    requires AtMost(b, c)
    ensures AtMost(a, b) ==> AtMost(a, c)
    ensures Less(a, b) ==> Less(a, c)
  {
    if AtMost(a, b) { AtMostTransitive(a, b, c); }
    if Less(a, b) { LessAtMost(a, b, c); }
  }

  /** At a and not above it is a itself. */
  lemma {:induction false} Between(a: string, b: string)
    ensures AtMost(a, b) && !Less(a, b) <==> a == b
  {
    Irreflexive(a);
  }

  lemma {:induction false} LessIsAtMost(a: string, b: string)
    ensures Less(a, b) ==> AtMost(a, b)
  {
  }

  /** The range of the indexes with a key, where keys never fall. */
  method NameRange(n: nat, key: nat --> Str, name: Str) returns (lo: nat, hi: nat)
    requires forall i: nat :: i < n ==> key.requires(i)
    requires forall i: nat, j: nat :: i < j < n ==> AtMost(key(i), key(j))
    ensures lo <= hi <= n
    ensures forall g: nat :: g < n ==> (lo <= g < hi <==> key(g) == name)
  {
    hide Less, AtMost;
    forall i: nat, j: nat | i <= j < n
      ensures AtMost(name, key(i)) ==> AtMost(name, key(j))
      ensures Less(name, key(i)) ==> Less(name, key(j))
    {
      if i < j { Upward(name, key(i), key(j)); }
    }
    forall i: nat | i < n
      ensures Less(name, key(i)) ==> AtMost(name, key(i))
      ensures AtMost(name, key(i)) && !Less(name, key(i)) <==> name == key(i)
    {
      LessIsAtMost(name, key(i));
      Between(name, key(i));
    }
    var atLeast := (i: nat) requires i < n && key.requires(i) => AtMost(name, key(i));
    var above := (i: nat) requires i < n && key.requires(i) => Less(name, key(i));
    lo, hi := Range(n, atLeast, above);
    forall g: nat | g < n ensures lo <= g < hi <==> key(g) == name {
      assert atLeast(g) == AtMost(name, key(g)) && above(g) == Less(name, key(g));
    }
  }

  /** FindFile: in any valid image a path is found exactly when a file has it. */
  method FindFile(t: Tables, path: Str) returns (i: nat, ok: bool)
    requires Valid(t)
    ensures ok <==> exists k: nat :: k < |t.files| && FileOk(t, k) && View(t.strs, t.files[k].path) == path
    ensures ok ==> i < |t.files| && FileOk(t, i) && View(t.strs, t.files[i].path) == path
  {
    hide Less, AtMost, FileOk, SymbolOk, RefRecOk, HintOk, ImportOk, ExportOk, SearchOk;
    forall k: nat | k < |t.files| ensures FileOk(t, k) && RefOk(t.strs, t.files[k].path) { PathIsOk(t, k); }
    var key := (k: nat) requires k < |t.files| && RefOk(t.strs, t.files[k].path) => View(t.strs, t.files[k].path);
    forall j: nat, k: nat | j < k < |t.files| ensures AtMost(key(j), key(k)) {
      assert FileOk(t, j) && FileOk(t, k);
      LessIsAtMost(key(j), key(k));
    }
    var lo, hi := NameRange(|t.files|, key, path);
    i, ok := lo, lo < hi;
    forall k: nat | k < |t.files| ensures lo <= k < hi <==> View(t.strs, t.files[k].path) == path {
      assert key(k) == View(t.strs, t.files[k].path);
    }
    if ok {
      assert FileOk(t, i) && View(t.strs, t.files[i].path) == path;
    }
  }

  lemma {:induction false} PathIsOk(t: Tables, i: nat)
    requires Valid(t) && i < |t.files|
    ensures RefOk(t.strs, t.files[i].path)
  {
    assert FileOk(t, i);
  }

  /** SymbolsNamed: the range of the symbols with a name. */
  method SymbolsNamed(t: Tables, name: Str) returns (lo: nat, hi: nat)
    requires Valid(t) && InOrder(t)
    ensures lo <= hi <= |t.syms|
    ensures forall g: nat :: g < |t.syms| ==> SymbolOk(t, g) && (lo <= g < hi <==> SymbolName(t, g) == name)
  {
    hide SymbolOk, AtMost;
    var key := (i: nat) requires i < |t.syms| && SymbolOk(t, i) => SymbolName(t, i);
    lo, hi := NameRange(|t.syms|, key, name);
    forall g: nat | g < |t.syms| ensures lo <= g < hi <==> SymbolName(t, g) == name { assert key(g) == SymbolName(t, g); }
  }

  /** RefsTo: the range of the references to a name. */
  method RefsTo(t: Tables, name: Str) returns (lo: nat, hi: nat)
    requires Valid(t) && InOrder(t)
    ensures lo <= hi <= |t.refs|
    ensures forall g: nat :: g < |t.refs| ==> RefRecOk(t, g) && (lo <= g < hi <==> RefName(t, g) == name)
  {
    hide RefRecOk, AtMost;
    var key := (i: nat) requires i < |t.refs| && RefRecOk(t, i) => RefName(t, i);
    lo, hi := NameRange(|t.refs|, key, name);
    forall g: nat | g < |t.refs| ensures lo <= g < hi <==> RefName(t, g) == name { assert key(g) == RefName(t, g); }
  }

  /** The indexes with a name, from a list of all of them by name. */
  method Named(list: seq<nat>, limit: nat, name: nat --> Str, want: Str) returns (r: seq<nat>)
    requires AllBelow(list, limit) && forall i: nat :: i < limit ==> name.requires(i) && i in list
    requires forall i, j :: 0 <= i < j < |list| ==>
      Less(name(list[i]), name(list[j])) || (name(list[i]) == name(list[j]) && list[i] < list[j])
    ensures forall i: nat :: i in r <==> i < limit && name(i) == want
    ensures forall i, j :: 0 <= i < j < |r| ==> r[i] < r[j]
  {
    hide Less;
    var key := (k: nat) requires k < |list| && name.requires(list[k]) => name(list[k]);
    forall i: nat, j: nat | i < j < |list| ensures AtMost(key(i), key(j)) { LessIsAtMost(name(list[i]), name(list[j])); }
    var lo, hi := NameRange(|list|, key, want);
    r := list[lo..hi];
    forall k: nat | k < |list| ensures lo <= k < hi <==> name(list[k]) == want { assert key(k) == name(list[k]); }
    forall i: nat ensures i in r <==> i < limit && name(i) == want {
      if i < limit && name(i) == want {
        var k :| 0 <= k < |list| && list[k] == i;
        assert r[k - lo] == i;
      }
    }
    forall i, j | 0 <= i < j < |r| ensures r[i] < r[j] {
      assert r[i] == list[lo + i] && r[j] == list[lo + j];
      assert name(list[lo + i]) == want == name(list[lo + j]);
      Irreflexive(want);
    }
  }

  /** PackageFiles: the files of a package, in path order. */
  method PackageFiles(t: Tables, pkg: Str) returns (r: seq<nat>)
    requires Valid(t) && InOrder(t)
    ensures forall i: nat :: i < |t.files| ==> FileOk(t, i) && (i in r <==> Package(t, i) == pkg)
    ensures AllBelow(r, |t.files|) && forall i, j :: 0 <= i < j < |r| ==> r[i] < r[j]
  {
    hide FileOk, Less;
    var name := (i: nat) requires i < |t.files| && FileOk(t, i) => Package(t, i);
    r := Named(t.pkgFiles, |t.files|, name, pkg);
    assert forall k :: 0 <= k < |r| ==> r[k] in r;
  }

  /** Importers: the imports of a path, in the order they are stored. */
  method Importers(t: Tables, path: Str) returns (r: seq<nat>)
    requires Valid(t) && InOrder(t)
    ensures forall i: nat :: i < |t.imps| ==> ImportOk(t, i) && (i in r <==> ImportPath(t, i) == path)
    ensures AllBelow(r, |t.imps|) && forall i, j :: 0 <= i < j < |r| ==> r[i] < r[j]
  {
    hide ImportOk, Less;
    var name := (i: nat) requires i < |t.imps| && ImportOk(t, i) => ImportPath(t, i);
    r := Named(t.impByPath, |t.imps|, name, path);
    assert forall k :: 0 <= k < |r| ==> r[k] in r;
  }

  /** The first entry of a dictionary that is not below a key. */
  method FirstEntry(strs: Str, dict: seq<DictRec>, limit: nat, key: Str) returns (i: nat)
    requires DictOk(strs, dict, limit)
    ensures i <= |dict| && forall k: nat :: k < |dict| ==> RefOk(strs, dict[k].key) && (AtMost(key, View(strs, dict[k].key)) <==> k >= i)
  {
    hide Less, AtMost, View;
    forall k | 0 <= k < |dict| ensures RefOk(strs, dict[k].key) { assert EntryOk(strs, dict[k], limit); }
    var atLeast := (k: nat) requires k < |dict| && RefOk(strs, dict[k].key) => AtMost(key, View(strs, dict[k].key));
    forall k: nat, l: nat | k <= l < |dict| && atLeast(k) ensures atLeast(l) {
      if k < l {
        assert EntryOk(strs, dict[k], limit) && EntryOk(strs, dict[l], limit);
        LessIsAtMost(View(strs, dict[k].key), View(strs, dict[l].key));
        Upward(key, View(strs, dict[k].key), View(strs, dict[l].key));
      }
    }
    i := First(|dict|, atLeast);
    forall k: nat | k < |dict| ensures AtMost(key, View(strs, dict[k].key)) <==> k >= i {
      assert atLeast(k) == AtMost(key, View(strs, dict[k].key));
    }
  }

  /** dictFind: a key's range of the list, empty when the dictionary does not have it. */
  method Find<T(!new)>(strs: Str, dict: seq<DictRec>, list: seq<T>, ghost marks: seq<map<Str, T>>, key: Str) returns (off: nat, n: nat)
    requires IsDict(strs, dict, list, marks)
    ensures off + n <= |list| && list[off..off + n] == Listing(marks, key, |marks|)
  {
    hide IsDict, Listing, AtMost, Less;
    IsDictIsOk(strs, dict, list, marks);
    var i := FirstEntry(strs, dict, |list|, key);
    if i == |dict| || View(strs, dict[i].key) != key {
      NotListed(strs, dict, list, marks, key, i);
      return 0, 0;
    }
    assert EntryLists(strs, dict[i], list, marks) by { EntryOf(strs, dict, list, marks, i); }
    off, n := dict[i].off, dict[i].n;
  }

  lemma {:induction false} EntryOf<T(!new)>(strs: Str, dict: seq<DictRec>, list: seq<T>, marks: seq<map<Str, T>>, i: nat)
    requires IsDict(strs, dict, list, marks) && i < |dict|
    ensures EntryLists(strs, dict[i], list, marks)
  {
  }

  lemma {:induction false} NoEntry(strs: Str, dict: seq<DictRec>, limit: nat, key: Str, i: nat, j: nat)
    requires DictOk(strs, dict, limit) && i <= |dict| && j < |dict|
    requires forall k: nat :: k < |dict| ==> RefOk(strs, dict[k].key) && (AtMost(key, View(strs, dict[k].key)) <==> k >= i)
    requires i == |dict| || View(strs, dict[i].key) != key
    ensures !Holds(strs, dict[j].key, key)
  {
    hide Less, View;
    if View(strs, dict[j].key) == key && i < j {
      assert EntryOk(strs, dict[i], limit) && EntryOk(strs, dict[j], limit);
      LessAtMost(View(strs, dict[i].key), key, View(strs, dict[i].key));
    }
  }

  lemma {:induction false} NotListed<T(!new)>(strs: Str, dict: seq<DictRec>, list: seq<T>, marks: seq<map<Str, T>>, key: Str, i: nat)
    requires IsDict(strs, dict, list, marks) && i <= |dict|
    requires forall k: nat :: k < |dict| ==> RefOk(strs, dict[k].key) && (AtMost(key, View(strs, dict[k].key)) <==> k >= i)
    requires i == |dict| || View(strs, dict[i].key) != key
    ensures Listing(marks, key, |marks|) == []
  {
    hide Less, AtMost, View, Listing, Marked, EntryLists, DictOk, Holds;
    forall j | 0 <= j < |dict| ensures !Holds(strs, dict[j].key, key) { NoEntry(strs, dict, |list|, key, i, j); }
  }

  /** x is a declaration with a term, and the term's weight there. */
  ghost predicate Weighs(lang: Language, files: seq<File>, slots: seq<Slot>, term: Str, x: PostRec)
  {
    && x.sym < |slots| && Declares(files, slots[x.sym]) && term in WeightsAt(lang, files, slots[x.sym])
    && x.weight == WeightsAt(lang, files, slots[x.sym])[term]
  }

  /** Postings: the declarations with a term and its weights there, in the order of the symbols. */
  method Postings(t: Tables, ghost lang: Language, ghost files: seq<File>, ghost slots: seq<Slot>, term: Str) returns (lo: nat, hi: nat)
    requires Searchable(lang, files, slots, t)
    ensures lo <= hi <= |t.posts|
    ensures forall x :: x in t.posts[lo..hi] <==> Weighs(lang, files, slots, term, x)
    ensures forall i, j :: 0 <= i < j < hi - lo ==> t.posts[lo..hi][i].sym < t.posts[lo..hi][j].sym
  {
    hide *;
    IsRanked(lang, files, slots, t);
    var off, n := Find(t.strs, t.terms, t.posts, TermMarks(lang, files, slots), term);
    TermListingWeighs(lang, files, slots, term);
    lo, hi := off, off + n;
  }

  lemma {:induction false} IsRanked(lang: Language, files: seq<File>, slots: seq<Slot>, t: Tables)
    requires Searchable(lang, files, slots, t)
    ensures IsDict(t.strs, t.terms, t.posts, TermMarks(lang, files, slots))
  {
  }

  lemma {:induction false} TermListingWeighs(lang: Language, files: seq<File>, slots: seq<Slot>, term: Str)
    ensures var marks := TermMarks(lang, files, slots); var list := Listing(marks, term, |marks|);
      && (forall x :: x in list <==> Weighs(lang, files, slots, term, x))
      && forall i, j :: 0 <= i < j < |list| ==> list[i].sym < list[j].sym
  {
    hide Listing, Declares, WeightsAt;
    TermListing(lang, files, slots, term, |slots|);
  }

  /** TrigramNames: the names with a trigram, ascending. */
  method TrigramNames(t: Tables, g: Str) returns (r: seq<nat>)
    requires GramsIndexed(t)
    ensures Increasing(r) && forall i: nat :: i in r <==> i < |t.names| && g in Trigrams(LowerNames(t)[i])
  {
    hide IsDict, Trigrams, Listing, GramMarks;
    var off, n := Find(t.strs, t.tris, t.triPost, GramMarks(LowerNames(t)), g);
    GramListing(LowerNames(t), g, |t.names|);
    r := t.triPost[off..off + n];
  }

  /** The range of the references inside a symbol, among those listed by enclosing symbol. */
  method EnclosedRange(t: Tables, sym: nat) returns (lo: nat, hi: nat)
    requires AllBelow(t.refsByEnclosing, |t.refs|)
    requires forall i, j :: 0 <= i < j < |t.refsByEnclosing| ==> EnclosedBefore(t.refs, t.refsByEnclosing[i], t.refsByEnclosing[j])
    ensures lo <= hi <= |t.refsByEnclosing|
    ensures forall k: nat :: k < |t.refsByEnclosing| ==> (lo <= k < hi <==> t.refs[t.refsByEnclosing[k]].enclosing == sym)
  {
    var rbe := t.refsByEnclosing;
    var n := |rbe|;
    var atLeast := (k: nat) requires k < n && rbe[k] < |t.refs| => t.refs[rbe[k]].enclosing >= sym;
    var above := (k: nat) requires k < n && rbe[k] < |t.refs| => t.refs[rbe[k]].enclosing > sym;
    assert forall i: nat, j: nat :: i < j < n ==> EnclosedBefore(t.refs, rbe[i], rbe[j]);
    lo, hi := Range(n, atLeast, above);
    forall k: nat | k < n ensures lo <= k < hi <==> t.refs[rbe[k]].enclosing == sym {
      assert atLeast(k) == (t.refs[rbe[k]].enclosing >= sym) && above(k) == (t.refs[rbe[k]].enclosing > sym);
    }
  }

  /** RefsFrom: the references inside a symbol, in line order. */
  method RefsFrom(t: Tables, sym: nat) returns (r: seq<nat>)
    requires Valid(t) && InOrder(t) && sym < |t.syms| && sym != NONE32
    ensures forall g: nat :: g < |t.refs| ==> (g in r <==> t.refs[g].enclosing == sym)
    ensures AllBelow(r, |t.refs|)
    ensures forall i, j :: 0 <= i < j < |r| ==>
      t.refs[r[i]].line < t.refs[r[j]].line || (t.refs[r[i]].line == t.refs[r[j]].line && r[i] < r[j])
  {
    hide FileOk, SymbolOk, RefRecOk, HintOk, View, Less, AtMost;
    var rbe := t.refsByEnclosing;
    var lo, hi := EnclosedRange(t, sym);
    r := rbe[lo..hi];
    forall g: nat | g < |t.refs| ensures g in r <==> t.refs[g].enclosing == sym {
      if t.refs[g].enclosing == sym {
        var k :| 0 <= k < |rbe| && rbe[k] == g;
        assert r[k - lo] == g;
      }
    }
    forall i, j | 0 <= i < j < |r|
      ensures t.refs[r[i]].line < t.refs[r[j]].line || (t.refs[r[i]].line == t.refs[r[j]].line && r[i] < r[j])
    {
      assert r[i] == rbe[lo + i] && r[j] == rbe[lo + j];
      assert EnclosedBefore(t.refs, rbe[lo + i], rbe[lo + j]);
    }
  }

  // ---------------------------------------------------------------------------------------------
  // Decoding a file

  /** Where each index was last seen. */
  method Positions(s: seq<nat>) returns (local: map<nat, nat>)
    ensures forall g: nat :: Position(s, g) == if g in local then Some(local[g]) else None
  {
    local := map[];
    for k := 0 to |s|
      invariant forall g: nat :: Position(s[..k], g) == if g in local then Some(local[g]) else None
    {
      assert s[..k + 1][..k] == s[..k];
      local := local[s[k] := k];
    }
    assert s[..|s|] == s;
  }

  function LocalIn(local: map<nat, nat>, g: nat): int
  {
    if g != NONE32 && g in local then local[g] else NO_CALLER
  }

  /** File: decode file i with all of its facts. */
  method ReadFile(t: Tables, i: nat) returns (f: File)
    requires Valid(t) && i < |t.files|
    ensures f == Decoded(t, i)
  {
    hide Position, SymbolOk, RefRecOk, HintOk, View, Bit, ArityOf, Signed64;
    assert FileOk(t, i);
    var r := t.files[i];
    var S, R := SymbolsInFile(t, i), RefsInFile(t, i);
    var local := Positions(S);
    var localRef := Positions(R);
    var symbols: seq<Symbol> := [];
    for k := 0 to |S|
      invariant |symbols| == k && forall j: nat :: j < k ==> symbols[j] == DecodedSymbol(t, S, S[j])
    {
      var s := ReadSymbol(t, S, S[k], local);
      symbols := symbols + [s];
    }
    var refs: seq<Ref> := [];
    for k := 0 to |R|
      invariant |refs| == k && forall j: nat :: j < k ==> refs[j] == DecodedRef(t, S, R, R[j])
    {
      var x := ReadRef(t, S, R, R[k], local, localRef);
      refs := refs + [x];
    }
    var hints: seq<Hint> := [];
    for k := 0 to r.hintN
      invariant |hints| == k && forall j: nat :: j < k ==> hints[j] == DecodedHint(t, S, r.hintOff + j)
    {
      var h := ReadHint(t, S, r.hintOff + k, local);
      hints := hints + [h];
    }
    var imports: seq<Import> := [];
    for k := 0 to r.impN
      invariant |imports| == k && forall j: nat :: j < k ==> imports[j] == DecodedImport(t, r.impOff + j)
    {
      var x := ReadImport(t, r.impOff + k);
      imports := imports + [x];
    }
    var exports: seq<Export> := [];
    for k := 0 to r.expN
      invariant |exports| == k && forall j: nat :: j < k ==> exports[j] == DecodedExport(t, r.expOff + j)
    {
      exports := exports + [DecodedExport(t, r.expOff + k)];
    }
    f := File(View(t.strs, r.path), View(t.strs, r.lang), View(t.strs, r.package), View(t.strs, r.pkgName), r.hash, Signed64(r.size),
              Signed64(r.mtime), View(t.strs, r.parseErr), Bit(r.flags, 1), Bit(r.flags, 2), Bit(r.flags, 4), Bit(r.flags, 8),
              symbols, imports, refs, exports, hints);
    ReadWhole(t, i, f);
  }

  lemma {:induction false} ReadWhole(t: Tables, i: nat, f: File)
    requires Valid(t) && i < |t.files|
    requires var d := Decoded(t, i);
      && |f.symbols| == |d.symbols| && |f.imports| == |d.imports| && |f.refs| == |d.refs| && |f.exports| == |d.exports| && |f.hints| == |d.hints|
      && f == d.(symbols := f.symbols, imports := f.imports, refs := f.refs, exports := f.exports, hints := f.hints)
      && (forall j: nat :: j < |d.symbols| ==> f.symbols[j] == d.symbols[j]) && (forall j: nat :: j < |d.imports| ==> f.imports[j] == d.imports[j])
      && (forall j: nat :: j < |d.refs| ==> f.refs[j] == d.refs[j]) && (forall j: nat :: j < |d.exports| ==> f.exports[j] == d.exports[j])
      && (forall j: nat :: j < |d.hints| ==> f.hints[j] == d.hints[j])
    ensures f == Decoded(t, i)
  {
    hide Valid, Decoded;
    var d := Decoded(t, i);
    assert f.symbols == d.symbols && f.imports == d.imports && f.refs == d.refs && f.exports == d.exports && f.hints == d.hints;
  }

  /** Import: an import with its listed names. */
  method ReadImport(t: Tables, i: nat) returns (x: Import)
    requires Valid(t) && i < |t.imps|
    ensures x == DecodedImport(t, i)
  {
    hide View, FileOk, SymbolOk, RefRecOk, HintOk, ExportOk, SearchOk;
    assert ImportOk(t, i);
    var r := t.imps[i];
    var names: seq<ImportedName> := [];
    for k := r.namesOff to r.namesOff + r.namesN
      invariant |names| == k - r.namesOff
      invariant forall j :: 0 <= j < |names| ==> names[j] == Paired(t.strs, t.impNames[r.namesOff + j])
    {
      assert PairOk(t.strs, t.impNames[k]);
      names := names + [ImportedName(View(t.strs, t.impNames[k].first), View(t.strs, t.impNames[k].second))];
    }
    x := Import(View(t.strs, r.path), View(t.strs, r.name), r.line, r.kind, names);
    assert names == DecodedImport(t, i).names;
  }

  method ReadHint(t: Tables, S: seq<nat>, i: nat, local: map<nat, nat>) returns (h: Hint)
    requires Valid(t) && i < |t.hints| && forall x: nat :: Position(S, x) == if x in local then Some(local[x]) else None
    ensures h == DecodedHint(t, S, i)
  {
    hide Position, View;
    assert HintOk(t, i);
    var r := t.hints[i];
    h := Hint(LocalIn(local, r.scope), View(t.strs, r.name), View(t.strs, r.kind), r.line);
  }

  method ReadSymbol(t: Tables, S: seq<nat>, g: nat, local: map<nat, nat>) returns (s: Symbol)
    requires Valid(t) && g < |t.syms| && forall x: nat :: Position(S, x) == if x in local then Some(local[x]) else None
    ensures s == DecodedSymbol(t, S, g)
  {
    hide Position, View, Bit, ArityOf;
    assert SymbolOk(t, g);
    var r := t.syms[g];
    s := Symbol(View(t.strs, r.name), r.kind, View(t.strs, r.receiver), View(t.strs, r.signature), View(t.strs, r.doc), r.line, r.endLine,
                Bit(r.flags, 1), 0, r.visibility, r.modifiers, ArityOf(r), View(t.strs, r.paramList));
    if r.container != NONE32 && r.container in local {
      s := s.(container := local[r.container] + 1);
    }
  }

  method ReadRef(t: Tables, S: seq<nat>, R: seq<nat>, g: nat, local: map<nat, nat>, localRef: map<nat, nat>) returns (x: Ref)
    requires Valid(t) && g < |t.refs| && forall x: nat :: Position(S, x) == if x in local then Some(local[x]) else None
    requires forall x: nat :: Position(R, x) == if x in localRef then Some(localRef[x]) else None
    ensures x == DecodedRef(t, S, R, g)
  {
    hide Position, View;
    assert RefRecOk(t, g);
    var r := t.refs[g];
    x := Ref(r.kind, LocalIn(local, r.enclosing), View(t.strs, r.name), View(t.strs, r.qualifier), r.qualKind, r.line, r.col, r.args,
             View(t.strs, r.argTypes), LocalIn(localRef, r.lambda) + 1);
  }
}
