/** Parsing an image: opening the container, and checking every record once. */
module SegmentParse {
  import opened Common
  import opened Order
  import opened SegmentBytes
  import opened SegmentRecords
  import opened SegmentTables
  import I = SegmentImage

  ghost predicate Rises(s: seq<Str>)
  {
    forall i, j :: 0 <= i < j < |s| ==> Less(s[i], s[j])
  }

  lemma {:induction false} NothingRises()
    ensures Rises([])
  {
  }

  lemma {:induction false} RisesOn(s: seq<Str>, x: Str)
    requires Rises(s)
    ensures Rises(s + [x]) <==> s == [] || Less(s[|s| - 1], x)
  {
    hide Less;
    var n := |s|;
    if s != [] {
      if Less(s[n - 1], x) {
        forall i | 0 <= i < n ensures Less(s[i], x) {
          if i < n - 1 { Transitive(s[i], s[n - 1], x); }
        }
      } else {
        assert (s + [x])[n - 1] == s[n - 1] && (s + [x])[n] == x;
      }
    }
  }

  /** The files' strings and ranges, and their order. */
  method ValidFiles(t: Tables) returns (ok: bool)
    ensures ok <==> (forall i: nat :: i < |t.files| ==> FileOk(t, i)) && PathsAscend(t)
  {
    hide Less, View, Rises;
    var prev: Str := [];
    ghost var paths: seq<Str> := [];
    NothingRises();
    for i := 0 to |t.files|
      invariant |paths| == i && Rises(paths) && (i > 0 ==> prev == paths[i - 1])
      invariant forall k: nat :: k < i ==> FileOk(t, k) && paths[k] == View(t.strs, t.files[k].path)
    {
      if !FileOk(t, i) { return false; }
      var path := View(t.strs, t.files[i].path);
      RisesOn(paths, path);
      if i > 0 && !Less(prev, path) {
        assert FileOk(t, i - 1) && FileOk(t, i);
        return false;
      }
      prev, paths := path, paths + [path];
    }
    RisingPaths(t, paths);
    return true;
  }

  lemma {:induction false} RisingPaths(t: Tables, paths: seq<Str>)
    requires Rises(paths) && |paths| == |t.files|
    requires forall k: nat :: k < |paths| ==> FileOk(t, k) && paths[k] == View(t.strs, t.files[k].path)
    ensures PathsAscend(t)
  {
    hide Less, View;
  }

  method ValidDict(strs: Str, dict: seq<DictRec>, limit: nat) returns (ok: bool)
    ensures ok <==> DictOk(strs, dict, limit)
  {
    hide Less, View, Rises;
    var prev: Str := [];
    ghost var keys: seq<Str> := [];
    NothingRises();
    for i := 0 to |dict|
      invariant |keys| == i && Rises(keys) && (i > 0 ==> prev == keys[i - 1])
      invariant forall k :: 0 <= k < i ==> EntryOk(strs, dict[k], limit) && keys[k] == View(strs, dict[k].key)
    {
      if !EntryOk(strs, dict[i], limit) { return false; }
      var key := View(strs, dict[i].key);
      RisesOn(keys, key);
      if i > 0 && !Less(prev, key) {
        assert EntryOk(strs, dict[i - 1], limit) && EntryOk(strs, dict[i], limit);
        return false;
      }
      prev, keys := key, keys + [key];
    }
    RisingKeys(strs, dict, limit, keys);
    return true;
  }

  lemma {:induction false} RisingKeys(strs: Str, dict: seq<DictRec>, limit: nat, keys: seq<Str>)
    requires Rises(keys) && |keys| == |dict|
    requires forall k :: 0 <= k < |dict| ==> EntryOk(strs, dict[k], limit) && keys[k] == View(strs, dict[k].key)
    ensures DictOk(strs, dict, limit)
  {
    hide Less, View;
  }

  method ValidPairs(strs: Str, pairs: seq<PairRec>) returns (ok: bool)
    ensures ok <==> PairsOk(strs, pairs)
  {
    for i := 0 to |pairs|
      invariant forall k :: 0 <= k < i ==> PairOk(strs, pairs[k])
    {
      if !PairOk(strs, pairs[i]) { return false; }
    }
    return true;
  }

  method ValidIndexes(s: seq<nat>, limit: nat) returns (ok: bool)
    ensures ok <==> AllBelow(s, limit)
  {
    for i := 0 to |s|
      invariant forall k :: 0 <= k < i ==> s[k] < limit
    {
      if s[i] >= limit { return false; }
    }
    return true;
  }

  /** validateSearch. */
  method ValidSearch(t: Tables) returns (ok: bool)
    ensures ok <==> SearchOk(t)
  {
    hide DictOk, PairsOk, AllBelow;
    if |t.docLen| != |t.syms| || |t.pkgFiles| != |t.files| { return false; }
    ok := ValidDict(t.strs, t.terms, |t.posts|);
    if !ok { return; }
    ok := ValidDict(t.strs, t.tris, |t.triPost|);
    if !ok { return; }
    for i := 0 to |t.posts|
      invariant forall k :: 0 <= k < i ==> t.posts[k].sym < |t.syms|
    {
      if t.posts[i].sym >= |t.syms| { return false; }
    }
    ok := ValidPairs(t.strs, t.names);
    if !ok { return; }
    ok := ValidIndexes(t.triPost, |t.names|);
    if !ok { return; }
    ok := ValidIndexes(t.pkgFiles, |t.files|);
  }

  method ValidSymbols(t: Tables) returns (ok: bool)
    ensures ok <==> forall i: nat :: i < |t.syms| ==> SymbolOk(t, i)
  {
    for i := 0 to |t.syms|
      invariant forall k: nat :: k < i ==> SymbolOk(t, k)
    {
      if !SymbolOk(t, i) { return false; }
    }
    return true;
  }

  method ValidImports(t: Tables) returns (ok: bool)
    ensures ok <==> forall i: nat :: i < |t.imps| ==> ImportOk(t, i)
  {
    for i := 0 to |t.imps|
      invariant forall k: nat :: k < i ==> ImportOk(t, k)
    {
      if !ImportOk(t, i) { return false; }
    }
    return true;
  }

  method ValidRefs(t: Tables) returns (ok: bool)
    ensures ok <==> forall i: nat :: i < |t.refs| ==> RefRecOk(t, i)
  {
    for i := 0 to |t.refs|
      invariant forall k: nat :: k < i ==> RefRecOk(t, k)
    {
      if !RefRecOk(t, i) { return false; }
    }
    return true;
  }

  method ValidExports(t: Tables) returns (ok: bool)
    ensures ok <==> forall i: nat :: i < |t.exps| ==> ExportOk(t, i)
  {
    for i := 0 to |t.exps|
      invariant forall k: nat :: k < i ==> ExportOk(t, k)
    {
      if !ExportOk(t, i) { return false; }
    }
    return true;
  }

  method ValidHints(t: Tables) returns (ok: bool)
    ensures ok <==> forall i: nat :: i < |t.hints| ==> HintOk(t, i)
  {
    for i := 0 to |t.hints|
      invariant forall k: nat :: k < i ==> HintOk(t, k)
    {
      if !HintOk(t, i) { return false; }
    }
    return true;
  }

  /** validate: section by section, every record once, in one pass over each. */
  method Validate(s: seq<seq<byte>>) returns (t: Option<Tables>)
    requires |s| == SECTIONS
    ensures t == if I.SizesOk(s) && Valid(I.TablesOf(s)) then Some(I.TablesOf(s)) else None
  {
    hide I.SizesOk, I.TablesOf, FileOk, SymbolOk, ImportOk, RefRecOk, ExportOk, HintOk, SearchOk, PairsOk, AllBelow, PathsAscend;
    if !I.SizesOk(s) { return None; }
    var x := I.TablesOf(s);
    var ok := ValidFiles(x);
    if !ok { return None; }
    ok := ValidSymbols(x);
    if !ok { return None; }
    ok := ValidSearch(x);
    if !ok { return None; }
    ok := ValidImports(x);
    if !ok { return None; }
    ok := ValidPairs(x.strs, x.impNames);
    if !ok { return None; }
    ok := ValidRefs(x);
    if !ok { return None; }
    ok := ValidExports(x);
    if !ok { return None; }
    ok := ValidHints(x);
    if !ok { return None; }
    ok := ValidIndexes(x.symByFile, |x.syms|);
    if !ok { return None; }
    ok := ValidIndexes(x.impByPath, |x.imps|);
    if !ok { return None; }
    ok := ValidIndexes(x.refsByEnclosing, |x.refs|);
    if !ok { return None; }
    ok := ValidIndexes(x.refsByFile, |x.refs|);
    if !ok { return None; }
    return Some(x);
  }

  /** Parse. */
  method Parse(data: seq<byte>, hash: Hash) returns (t: Option<Tables>)
    ensures t == I.Parsed(data, hash)
  {
    hide I.SizesOk, I.TablesOf, Valid;
    var c := Open(data, hash);
    if c.None? || |c.value.sections| != SECTIONS { return None; }
    t := Validate(c.value.sections);
  }
}
