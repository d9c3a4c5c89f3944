/**
 Encoding files into segment tables: interning strings, sorting records, and writing every link as a global index.
 */
module SegmentEncode {
  import opened Common
  import opened Order
  import opened Sorting
  import opened SegmentRecords
  import opened SegmentTables
  import opened SegmentSearch
  import opened SegmentOrders
  import opened SegmentStrings
  import opened SegmentTexts
  import R = SegmentRoundTrip

  datatype Result<+T> = Ok(value: T) | Err(error: Error)

  datatype Error = DuplicatePath(path: Str) | BadSymbol(slot: Slot) | BadRef(slot: Slot) | BadImport(slot: Slot) | TooLong

  const MAX_STRINGS: nat := 0x8000_0000

  // ---------------------------------------------------------------------------------------------
  // The encoder

  /** Whether a symbol can be stored at all. */
  predicate Storable(s: Symbol)
  {
    s.kind < KINDS && s.visibility < VISIBILITIES && ArityFits(s.params)
  }

  /**
   Every symbol has one of 26 kinds, one of 6 visibilities and an arity that is unknown or from 0 to 254, every reference one of
   8 kinds and every import one of 7.
   */
  ghost predicate FileStorable(f: File)
  {
    && (forall k: nat :: k < |f.symbols| ==> f.symbols[k].kind < 26 && f.symbols[k].visibility < 6 && Countable(f.symbols[k].params))
    && (forall k: nat :: k < |f.refs| ==> f.refs[k].kind < 8) && (forall k: nat :: k < |f.imports| ==> f.imports[k].kind < 7)
  }

  predicate Countable(a: Arity)
  {
    !a.known || (0 <= a.min <= 254 && (a.max == -1 || a.min <= a.max <= 254))
  }

  class Encoder {
    var strs: Str
    var interns: map<Str, StrRef>
    /** The texts it may be given, and those that it was given, in the order of the bytes. */
    ghost const mine: iset<Str>
    ghost var words: seq<Str>

    ghost predicate Valid()
      reads this
    {
      (forall s :: s in interns ==> Holds(strs, interns[s], s)) && Spells(words, interns, |strs|, mine)
    }

    constructor (ghost mine: iset<Str>)
      ensures Valid() && strs == [] && interns == map[] && this.mine == mine
    {
      strs, interns := [], map[];
      this.mine := mine;
      words := [];
    }

    /** ref: where a string is, added if it is new. Equal strings share one place. */
    method Intern(s: Str) returns (r: StrRef)
      requires Valid() && (s == [] || s in mine)
      modifies this
      ensures Valid() && old(strs) <= strs && Holds(strs, r, s)
      ensures s == [] ==> r == StrRef(0, 0)
      ensures s != [] ==> s in interns && interns[s] == r
      ensures forall x :: x in old(interns) ==> x in interns && interns[x] == old(interns[x])
      ensures s in old(interns) ==> strs == old(strs)
    {
      if s == [] { return StrRef(0, 0); }
      if s in interns { return interns[s]; }
      r := StrRef(|strs|, |s|);
      ghost var was := strs;
      SpellsMore(words, interns, |strs|, mine, s, r);
      strs := strs + s;
      interns := interns[s := r];
      words := words + [s];
      assert strs[|was|..|was| + |s|] == s;
      forall x | x in interns ensures Holds(strs, interns[x], x) {
        if x != s { HoldsStays(was, strs, interns[x], x); }
      }
    }

    method WriteSymbol(files: seq<File>, plan: Plan, global: map<Slot, nat>, g: nat) returns (r: Result<SymRec>)
      requires Valid() && Allows(mine, files) && Listed(files, plan) && IsGlobal(plan.syms, global) && g < |plan.syms|
      modifies this
      ensures Valid() && old(strs) <= strs
      ensures r.Ok? ==> IsSymbol(files, plan, strs, r.value, g)
      ensures r.Err? ==> r.error != TooLong && exists f :: f in files && !FileStorable(f)
    {
      hide Spells, Allows, Lists, Holds, LinkTo, U32, IsGlobal;
      SlotIsListed(files, plan, g);
      var slot := plan.syms[g];
      SymbolTexts(mine, files, slot.file, slot.local);
      var s := files[slot.file].symbols[slot.local];
      if !Storable(s) {
        assert files[slot.file] in files && !FileStorable(files[slot.file]);
        return Err(BadSymbol(slot));
      }
      var name := Intern(s.name);
      var s1 := strs;
      var receiver := Intern(s.receiver);
      var s2 := strs;
      var signature := Intern(s.signature);
      var s3 := strs;
      var doc := Intern(s.doc);
      var s4 := strs;
      var list := Intern(if s.params.known then s.paramList else []);
      HoldsStays(s1, strs, name, s.name);
      HoldsStays(s2, strs, receiver, s.receiver);
      HoldsStays(s3, strs, signature, s.signature);
      HoldsStays(s4, strs, doc, s.doc);
      var container := Link(plan.syms, global, slot.file, Other(s.container - 1, slot.local), |files[slot.file].symbols|);
      var min, max := 0, 0;
      if s.params.known {
        min := s.params.min;
        max := if s.params.max == VAR_ARGS then 0xFF else s.params.max;
      }
      r := Ok(SymRec(name, receiver, signature, doc, slot.file, U32(s.line), U32(s.endLine), s.kind, SymFlags(s), s.visibility,
                     container, s.modifiers, min, max, list));
    }

    method WriteSymbols(files: seq<File>, plan: Plan, global: map<Slot, nat>) returns (r: Result<seq<SymRec>>)
      requires Valid() && Allows(mine, files) && Listed(files, plan) && IsGlobal(plan.syms, global)
      modifies this
      ensures Valid() && old(strs) <= strs
      ensures r.Ok? ==> |r.value| == |plan.syms| && forall g: nat :: g < |plan.syms| ==> IsSymbol(files, plan, strs, r.value[g], g)
      ensures r.Err? ==> r.error != TooLong && exists f :: f in files && !FileStorable(f)
    {
      hide Spells, Allows, Listed, IsSymbol, IsGlobal, FileStorable;
      var recs: seq<SymRec> := [];
      for i := 0 to |plan.syms|
        invariant Valid() && old(strs) <= strs && |recs| == i
        invariant forall g: nat :: g < i ==> IsSymbol(files, plan, strs, recs[g], g)
      {
        ghost var was := strs;
        var rec := WriteSymbol(files, plan, global, i);
        if rec.Err? { return Err(rec.error); }
        forall g: nat | g < i ensures IsSymbol(files, plan, strs, recs[g], g) { SymbolStays(files, plan, was, strs, recs[g], g); }
        recs := recs + [rec.value];
      }
      return Ok(recs);
    }

    method WriteRef(files: seq<File>, plan: Plan, syms: map<Slot, nat>, refs: map<Slot, nat>, g: nat) returns (r: Result<RefRec>)
      requires Valid() && Allows(mine, files) && Listed(files, plan) && IsGlobal(plan.syms, syms) && IsGlobal(plan.refs, refs) && g < |plan.refs|
      modifies this
      ensures Valid() && old(strs) <= strs
      ensures r.Ok? ==> IsRef(files, plan, strs, r.value, g)
      ensures r.Err? ==> r.error != TooLong && exists f :: f in files && !FileStorable(f)
    {
      hide Spells, Allows, Lists, Holds, LinkTo, U32, IsGlobal;
      RefSlotIsListed(files, plan, g);
      var slot := plan.refs[g];
      RefTexts(mine, files, slot.file, slot.local);
      var f := files[slot.file];
      var x := f.refs[slot.local];
      if x.kind >= REF_KINDS {
        assert f in files && !FileStorable(f);
        return Err(BadRef(slot));
      }
      var name := Intern(x.name);
      var s1 := strs;
      var qualifier := Intern(x.qualifier);
      var s2 := strs;
      var types := Intern(x.argTypes);
      HoldsStays(s1, strs, name, x.name);
      HoldsStays(s2, strs, qualifier, x.qualifier);
      var enclosing := Link(plan.syms, syms, slot.file, x.enclosing, |f.symbols|);
      var lambda := Link(plan.refs, refs, slot.file, Other(x.lambda - 1, slot.local), |f.refs|);
      var col := if x.col < 0xFFFF then x.col else 0xFFFF;
      r := Ok(RefRec(name, qualifier, slot.file, enclosing, U32(x.line), U16(col), x.qualKind, x.kind, x.args, types, lambda));
    }

    method WriteRefs(files: seq<File>, plan: Plan, syms: map<Slot, nat>, refs: map<Slot, nat>) returns (r: Result<seq<RefRec>>)
      requires Valid() && Allows(mine, files) && Listed(files, plan) && IsGlobal(plan.syms, syms) && IsGlobal(plan.refs, refs)
      modifies this
      ensures Valid() && old(strs) <= strs
      ensures r.Ok? ==> |r.value| == |plan.refs| && forall g: nat :: g < |plan.refs| ==> IsRef(files, plan, strs, r.value[g], g)
      ensures r.Err? ==> r.error != TooLong && exists f :: f in files && !FileStorable(f)
    {
      hide Spells, Allows, Listed, IsRef, IsGlobal, FileStorable;
      var recs: seq<RefRec> := [];
      for i := 0 to |plan.refs|
        invariant Valid() && old(strs) <= strs && |recs| == i
        invariant forall g: nat :: g < i ==> IsRef(files, plan, strs, recs[g], g)
      {
        ghost var was := strs;
        var rec := WriteRef(files, plan, syms, refs, i);
        if rec.Err? { return Err(rec.error); }
        forall g: nat | g < i ensures IsRef(files, plan, strs, recs[g], g) { RefStays(files, plan, was, strs, recs[g], g); }
        recs := recs + [rec.value];
      }
      return Ok(recs);
    }

    method WriteHints(files: seq<File>, plan: Plan, syms: map<Slot, nat>) returns (recs: seq<HintRec>)
      requires Valid() && Allows(mine, files) && Listed(files, plan) && IsGlobal(plan.syms, syms)
      modifies this
      ensures Valid() && old(strs) <= strs
      ensures |recs| == |plan.hints| && forall g: nat :: g < |plan.hints| ==> IsHint(files, plan, strs, recs[g], g)
    {
      hide Spells, Allows, IsHint, IsGlobal, LinkTo;
      recs := [];
      for i := 0 to |plan.hints|
        invariant Valid() && old(strs) <= strs && |recs| == i
        invariant forall g: nat :: g < i ==> IsHint(files, plan, strs, recs[g], g)
      {
        ghost var was := strs;
        var rec := WriteHint(files, plan, syms, i);
        forall g: nat | g < i ensures IsHint(files, plan, strs, recs[g], g) { HintStays(files, plan, was, strs, recs[g], g); }
        recs := recs + [rec];
      }
    }

    method WriteHint(files: seq<File>, plan: Plan, syms: map<Slot, nat>, g: nat) returns (r: HintRec)
      requires Valid() && Allows(mine, files) && Listed(files, plan) && IsGlobal(plan.syms, syms) && g < |plan.hints|
      modifies this
      ensures Valid() && old(strs) <= strs && IsHint(files, plan, strs, r, g)
    {
      hide Spells, Allows, Lists, Holds, LinkTo, U32, IsGlobal;
      HintSlotIsListed(files, plan, g);
      var slot := plan.hints[g];
      HintTexts(mine, files, slot.file, slot.local);
      var f := files[slot.file];
      var h := f.hints[slot.local];
      var name := Intern(h.name);
      var s1 := strs;
      var kind := Intern(h.kind);
      HoldsStays(s1, strs, name, h.name);
      var scope := Link(plan.syms, syms, slot.file, h.scope, |f.symbols|);
      r := HintRec(name, kind, slot.file, scope, U32(h.line));
    }

    /** Pairs of strings. */
    method WritePairs(pairs: seq<(Str, Str)>) returns (recs: seq<PairRec>)
      requires Valid() && forall k :: 0 <= k < |pairs| ==> pairs[k].0 in mine && pairs[k].1 in mine
      modifies this
      ensures Valid() && old(strs) <= strs
      ensures |recs| == |pairs| && forall k :: 0 <= k < |pairs| ==> IsPair(strs, recs[k], pairs[k].0, pairs[k].1)
    {
      recs := [];
      for i := 0 to |pairs|
        invariant Valid() && old(strs) <= strs && |recs| == i
        invariant forall k :: 0 <= k < i ==> IsPair(strs, recs[k], pairs[k].0, pairs[k].1)
      {
        hide Spells, Holds, IsPair, Valid;
        ghost var was := strs;
        var first := Intern(pairs[i].0);
        ghost var s1 := strs;
        var second := Intern(pairs[i].1);
        HoldsStays(s1, strs, first, pairs[i].0);
        forall k | 0 <= k < i ensures IsPair(strs, recs[k], pairs[k].0, pairs[k].1) { PairStays(was, strs, recs[k], pairs[k].0, pairs[k].1); }
        assert IsPair(strs, PairRec(first, second), pairs[i].0, pairs[i].1) by { PairHolds(strs, PairRec(first, second), pairs[i].0, pairs[i].1); }
        recs := recs + [PairRec(first, second)];
      }
    }

    /** An import, and its listed names, which follow those written before. */
    method WriteImport(files: seq<File>, plan: Plan, names: seq<PairRec>, g: nat) returns (r: Result<ImportRec>, more: seq<PairRec>)
      requires Valid() && Allows(mine, files) && Listed(files, plan) && g < |plan.imps|
      modifies this
      ensures Valid() && old(strs) <= strs && PairsOk(strs, more)
      ensures r.Ok? ==> IsImport(files, plan, strs, names + more, r.value, g)
      ensures r.Err? ==> r.error != TooLong && exists f :: f in files && !FileStorable(f)
    {
      hide Spells, Allows, Lists, Holds, U32, IsPair, Valid;
      more := [];
      ImportSlotIsListed(files, plan, g);
      var slot := plan.imps[g];
      ImportTexts(mine, files, slot.file, slot.local);
      var x := files[slot.file].imports[slot.local];
      if x.kind >= IMPORT_KINDS {
        assert files[slot.file] in files && !FileStorable(files[slot.file]);
        return Err(BadImport(slot)), more;
      }
      var path := Intern(x.path);
      var s1 := strs;
      var name := Intern(x.name);
      var s2 := strs;
      var pairs := seq(|x.names|, k requires 0 <= k < |x.names| => (x.names[k].name, x.names[k].alias));
      more := WritePairs(pairs);
      PairsAreOk(strs, more, pairs);
      HoldsStays(s1, strs, path, x.path);
      HoldsStays(s2, strs, name, x.name);
      forall k | 0 <= k < |x.names| ensures IsPair(strs, (names + more)[|names| + k], x.names[k].name, x.names[k].alias) {
        assert (names + more)[|names| + k] == more[k] && pairs[k] == (x.names[k].name, x.names[k].alias);
      }
      r := Ok(ImportRec(path, name, slot.file, U32(x.line), x.kind, |names|, |x.names|));
    }

    method WriteImports(files: seq<File>, plan: Plan) returns (r: Result<seq<ImportRec>>, names: seq<PairRec>)
      requires Valid() && Allows(mine, files) && Listed(files, plan)
      modifies this
      ensures Valid() && old(strs) <= strs && PairsOk(strs, names)
      ensures r.Ok? ==> |r.value| == |plan.imps| && forall g: nat :: g < |plan.imps| ==> IsImport(files, plan, strs, names, r.value[g], g)
      ensures r.Err? ==> r.error != TooLong && exists f :: f in files && !FileStorable(f)
    {
      hide Spells, Allows, Listed, IsImport, FileStorable, Valid, PairOk;
      var recs: seq<ImportRec> := [];
      names := [];
      for i := 0 to |plan.imps|
        invariant Valid() && old(strs) <= strs && |recs| == i && PairsOk(strs, names)
        invariant forall g: nat :: g < i ==> IsImport(files, plan, strs, names, recs[g], g)
      {
        ghost var was := strs;
        var rec, more := WriteImport(files, plan, names, i);
        PairsStayOk(was, strs, names);
        if rec.Err? { return Err(rec.error), names; }
        forall g: nat | g < i ensures IsImport(files, plan, strs, names + more, recs[g], g) {
          ImportStays(files, plan, was, strs, names, names + more, recs[g], g);
        }
        recs := recs + [rec.value];
        names := names + more;
      }
      r := Ok(recs);
    }

    method WriteExport(files: seq<File>, plan: Plan, g: nat) returns (r: ExportRec)
      requires Valid() && Allows(mine, files) && Listed(files, plan) && g < |plan.exps|
      modifies this
      ensures Valid() && old(strs) <= strs && IsExport(files, plan, strs, r, g)
    {
      hide Spells, Allows, Lists, Holds, U32;
      ExportSlotIsListed(files, plan, g);
      var slot := plan.exps[g];
      ExportTexts(mine, files, slot.file, slot.local);
      var x := files[slot.file].exports[slot.local];
      var name := Intern(x.name);
      var s1 := strs;
      var source := Intern(x.source);
      var s2 := strs;
      var sourceName := Intern(x.sourceName);
      HoldsStays(s1, strs, name, x.name);
      HoldsStays(s2, strs, source, x.source);
      r := ExportRec(name, source, sourceName, slot.file, U32(x.line));
    }

    method WriteExports(files: seq<File>, plan: Plan) returns (recs: seq<ExportRec>)
      requires Valid() && Allows(mine, files) && Listed(files, plan)
      modifies this
      ensures Valid() && old(strs) <= strs
      ensures |recs| == |plan.exps| && forall g: nat :: g < |plan.exps| ==> IsExport(files, plan, strs, recs[g], g)
    {
      hide Spells, Allows, IsExport, Valid;
      recs := [];
      for i := 0 to |plan.exps|
        invariant Valid() && old(strs) <= strs && |recs| == i
        invariant forall g: nat :: g < i ==> IsExport(files, plan, strs, recs[g], g)
      {
        ghost var was := strs;
        var rec := WriteExport(files, plan, i);
        forall g: nat | g < i ensures IsExport(files, plan, strs, recs[g], g) { ExportStays(files, plan, was, strs, recs[g], g); }
        recs := recs + [rec];
      }
    }

    /** One file's record; its slices of the per-file indexes follow those written before. */
    method WriteFile(files: seq<File>, plan: Plan, i: nat, starts: Starts, symbols: seq<nat>, refs: seq<nat>,
                     symByFile: seq<nat>, refsByFile: seq<nat>) returns (r: FileRec)
      requires Valid() && Allows(mine, files) && i < |files| && StartsAt(files, plan, starts, i)
      requires OfFile(plan.syms, symbols, i) && |symbols| == |files[i].symbols| && ByKey(Locals(plan.syms, symbols), SymbolPlace(files[i]))
      requires OfFile(plan.refs, refs, i) && |refs| == |files[i].refs| && ByKey(Locals(plan.refs, refs), RefPlace(files[i]))
      modifies this
      ensures Valid() && old(strs) <= strs
      ensures IsFile(files, plan, strs, symByFile + symbols, refsByFile + refs, r, i)
    {
      hide Spells, Allows, Holds, OfFile, U64, FileFlags, IsGroup, ByKey, Locals, SymbolPlace, RefPlace, ImportPlace, ExportPlace, HintPlace, IsIndex, Valid;
      var f := files[i];
      FileTexts(mine, files, i);
      var path := Intern(f.path);
      var s1 := strs;
      var package := Intern(f.package);
      var s2 := strs;
      var pkgName := Intern(f.pkgName);
      var s3 := strs;
      var lang := Intern(f.lang);
      var s4 := strs;
      var parseErr := Intern(f.parseErr);
      HoldsStays(s1, strs, path, f.path);
      HoldsStays(s2, strs, package, f.package);
      HoldsStays(s3, strs, pkgName, f.pkgName);
      HoldsStays(s4, strs, lang, f.lang);
      IndexAppended(plan.syms, i, symByFile, symbols, SymbolPlace(f));
      IndexAppended(plan.refs, i, refsByFile, refs, RefPlace(f));
      r := FileRec(path, package, pkgName, lang, parseErr, f.hash, U64(f.size), U64(f.mtime), |symByFile|, |symbols|,
                   starts.imps[i], |f.imports|, |refsByFile|, |refs|, FileFlags(f), starts.exps[i], |f.exports|,
                   starts.hints[i], |f.hints|);
    }

    method WriteFiles(files: seq<File>, plan: Plan, syms: map<Slot, nat>, refs: map<Slot, nat>, starts: Starts)
      returns (recs: seq<FileRec>, symByFile: seq<nat>, refsByFile: seq<nat>)
      requires Valid() && Allows(mine, files) && Listed(files, plan) && IsGlobal(plan.syms, syms) && IsGlobal(plan.refs, refs)
      requires ByKey(plan.syms, SymbolKey(files)) && ByKey(plan.refs, RefKey(files))
      requires forall i: nat :: i < |files| ==> StartsAt(files, plan, starts, i)
      modifies this
      ensures Valid() && old(strs) <= strs && |recs| == |files|
      ensures forall i: nat :: i < |files| ==> IsFile(files, plan, strs, symByFile, refsByFile, recs[i], i)
      ensures AllBelow(symByFile, |plan.syms|) && AllBelow(refsByFile, |plan.refs|)
    {
      hide Spells, Allows, IsFile, IsGlobal, StartsAt, Lists, OfFile, ByKey, Locals, SymbolPlace, RefPlace, SymbolKey, RefKey, SymbolLine, RefLine, Valid;
      recs, symByFile, refsByFile := [], [], [];
      for i := 0 to |files|
        invariant Valid() && old(strs) <= strs && |recs| == i
        invariant forall k: nat :: k < i ==> IsFile(files, plan, strs, symByFile, refsByFile, recs[k], k)
        invariant AllBelow(symByFile, |plan.syms|) && AllBelow(refsByFile, |plan.refs|)
      {
        var mine := FileIndex(plan.syms, SymbolCounts(files), syms, i, SymbolLine(files, plan));
        var theirs := FileIndex(plan.refs, RefCounts(files), refs, i, RefLine(files, plan));
        OfFileIsBelow(plan.syms, mine, i);
        OfFileIsBelow(plan.refs, theirs, i);
        SymbolsFollow(files, plan, i, mine);
        RefsFollow(files, plan, i, theirs);
        ghost var was := strs;
        var rec := WriteFile(files, plan, i, starts, mine, theirs, symByFile, refsByFile);
        forall k: nat | k < i ensures IsFile(files, plan, strs, symByFile + mine, refsByFile + theirs, recs[k], k) {
          FileStays(files, plan, was, strs, symByFile, symByFile + mine, refsByFile, refsByFile + theirs, recs[k], k);
        }
        symByFile, refsByFile, recs := symByFile + mine, refsByFile + theirs, recs + [rec];
      }
    }

    /** A dictionary: the keys in order, each with the range of its list. */
    method WriteDict<T(!new)>(lists: map<Str, seq<T>>, ghost marks: seq<map<Str, T>>) returns (dict: seq<DictRec>, list: seq<T>)
      requires Valid() && Gathered(lists, marks, |marks|) && forall key :: key in lists ==> key in mine
      modifies this
      ensures Valid() && old(strs) <= strs && IsDict(strs, dict, list, marks)
    {
      hide Spells, Valid, Holds, Less, Gathered, Listing, EntryLists, Marked;
      var keys := SortedKeys(lists);
      dict, list := [], [];
      for i := 0 to |keys|
        invariant Valid() && old(strs) <= strs && |dict| == i
        invariant forall k :: 0 <= k < i ==> Holds(strs, dict[k].key, keys[k]) && EntryLists(strs, dict[k], list, marks)
        invariant forall k :: 0 <= k < |list| ==> Marked(marks, list[k])
      {
        ghost var was := strs;
        var key := Intern(keys[i]);
        var r := DictRec(key, |list|, |lists[keys[i]]|);
        forall k | 0 <= k < i ensures Holds(strs, dict[k].key, keys[k]) && EntryLists(strs, dict[k], list + lists[keys[i]], marks) {
          HoldsStays(was, strs, dict[k].key, keys[k]);
          EntryStays(was, strs, dict[k], list, list + lists[keys[i]], marks);
        }
        EntryAdded(strs, r, keys[i], list, lists, marks);
        dict := dict + [r];
        list := list + lists[keys[i]];
      }
      DictIsWhole(strs, dict, list, lists, marks, keys);
    }

    /** encodeSearch. */
    method WriteSearch(lang: Language, files: seq<File>, plan: Plan) returns (x: Search)
      requires Valid() && AllowsTerms(mine, lang, files) && Listed(files, plan) && ByKey(plan.syms, SymbolKey(files))
      modifies this
      ensures Valid() && old(strs) <= strs && IsSearch(lang, files, plan.syms, strs, x)
    {
      hide Spells, AllowsTerms, Valid, Gathered, IsDict, ByKey, SymbolKey, Declares, WeightsAt, AreNames, IsPair, GramMarks;
      NamesAscend(files, plan);
      var marks, docLen, lens, names := Weigh(lang, files, plan.syms);
      var byTerm := Gather(marks);
      TermTexts(mine, lang, files, plan.syms, byTerm);
      NameTexts(mine, lang, files, plan.syms, names);
      var terms, posts := WriteDict(byTerm, marks);
      var s1 := strs;
      var pairs := seq(|names|, i requires 0 <= i < |names| => (names[i], lang.lower(names[i])));
      var nameRecs := WritePairs(pairs);
      var s2 := strs;
      var lower := seq(|names|, i requires 0 <= i < |names| => lang.lower(names[i]));
      var byGram := GatherTrigrams(lower);
      GramTexts(mine, lower, byGram);
      var tris, triPost := WriteDict(byGram, GramMarks(lower));
      DictStays(s1, strs, terms, posts, marks);
      forall i | 0 <= i < |names| ensures IsPair(strs, nameRecs[i], names[i], lang.lower(names[i])) {
        assert pairs[i] == (names[i], lang.lower(names[i]));
        PairStays(s2, strs, nameRecs[i], names[i], lang.lower(names[i]));
      }
      x := Search(|lens|, lang.total(lens), docLen, terms, posts, nameRecs, tris, triPost);
      SearchIsWritten(lang, files, plan.syms, strs, x, names, lower, lens);
    }
  }

  /** What encodeSearch computes. */
  datatype Search = Search(docs: nat, total: nat, docLen: seq<nat>, terms: seq<DictRec>, posts: seq<PostRec>, names: seq<PairRec>,
                           tris: seq<DictRec>, triPost: seq<nat>)

  function WithSearch(t: Tables, strs: Str, x: Search): Tables
  {
    t.(strs := strs, docs := x.docs, total := x.total, docLen := x.docLen, terms := x.terms, posts := x.posts, names := x.names,
       tris := x.tris, triPost := x.triPost)
  }

  const NO_TABLES: Tables := Tables([], [], [], [], [], [], [], [], [], 0, 0, [], [], [], [], [], [], [], [], [], [])

  ghost predicate IsSearch(lang: Language, files: seq<File>, slots: seq<Slot>, strs: Str, x: Search)
  {
    Searchable(lang, files, slots, WithSearch(NO_TABLES, strs, x))
  }

  lemma {:induction false} SearchIsWritten(lang: Language, files: seq<File>, slots: seq<Slot>, strs: Str, x: Search, names: seq<Str>,
                                           lower: seq<Str>, lens: seq<nat>)
    requires x.docs == |lens| && x.total == lang.total(lens) && lens == Lengths(lang, files, slots, |slots|) && |x.docLen| == |slots|
    requires forall g :: 0 <= g < |slots| ==>
      x.docLen[g] == if Declares(files, slots[g]) then lang.length(WeightsAt(lang, files, slots[g])) else 0
    requires IsDict(strs, x.terms, x.posts, TermMarks(lang, files, slots)) && IsDict(strs, x.tris, x.triPost, GramMarks(lower))
    requires AreNames(files, slots, |slots|, names) && |names| == |lower| == |x.names|
    requires forall i :: 0 <= i < |names| ==> lower[i] == lang.lower(names[i]) && IsPair(strs, x.names[i], names[i], lower[i])
    ensures IsSearch(lang, files, slots, strs, x)
  {
    hide IsDict, AreNames, Declares, WeightsAt, TermMarks, GramMarks, Lengths;
    var t := WithSearch(NO_TABLES, strs, x);
    assert PairsOk(strs, x.names);
    assert LowerNames(t) == lower;
    assert NamesIndexed(lang, files, slots, t);
  }

  lemma {:induction false} SearchStays(lang: Language, files: seq<File>, slots: seq<Slot>, a: Str, t: Tables, x: Search)
    requires IsSearch(lang, files, slots, a, x) && a <= t.strs
    requires t.docs == x.docs && t.total == x.total && t.docLen == x.docLen && t.terms == x.terms && t.posts == x.posts
    requires t.names == x.names && t.tris == x.tris && t.triPost == x.triPost
    ensures Searchable(lang, files, slots, t)
  {
    hide IsDict, AreNames, Declares, WeightsAt, TermMarks, GramMarks, Lengths, IsPair;
    var was := WithSearch(NO_TABLES, a, x);
    DictStays(a, t.strs, t.terms, t.posts, TermMarks(lang, files, slots));
    DictStays(a, t.strs, t.tris, t.triPost, GramMarks(LowerNames(was)));
    LowerStays(was, t);
    var names: seq<Str> :| |names| == |t.names| && AreNames(files, slots, |slots|, names)
      && forall i :: 0 <= i < |names| ==> IsPair(a, t.names[i], names[i], lang.lower(names[i]));
    forall i | 0 <= i < |names| ensures IsPair(t.strs, t.names[i], names[i], lang.lower(names[i])) {
      PairStays(a, t.strs, t.names[i], names[i], lang.lower(names[i]));
    }
  }

  /** The keys in ascending order. */
  method SortedKeys<T>(lists: map<Str, T>) returns (keys: seq<Str>)
    ensures forall i, j :: 0 <= i < j < |keys| ==> Less(keys[i], keys[j])
    ensures forall key :: key in keys <==> key in lists
  {
    var all: seq<Str> := [];
    var todo := lists.Keys;
    while todo != {}
      invariant todo <= lists.Keys && Distinct(all) && forall g :: g in all <==> g in lists && g !in todo
    {
      var g :| g in todo;
      todo := todo - {g};
      all := all + [g];
    }
    keys := SortByKey(all, (s: Str) => [Name(s)]);
    forall i, j | 0 <= i < j < |keys| ensures Less(keys[i], keys[j]) {
      NamesCompare(keys[i], 0, keys[j], 0);
    }
  }

  lemma {:induction false} EntryAdded<T(!new)>(strs: Str, r: DictRec, key: Str, list: seq<T>, lists: map<Str, seq<T>>, marks: seq<map<Str, T>>)
    requires Gathered(lists, marks, |marks|) && key in lists && Holds(strs, r.key, key) && r.off == |list| && r.n == |lists[key]|
    requires forall k :: 0 <= k < |list| ==> Marked(marks, list[k])
    ensures EntryLists(strs, r, list + lists[key], marks)
    ensures forall k :: 0 <= k < |list + lists[key]| ==> Marked(marks, (list + lists[key])[k])
  {
    hide Listing, Less;
    assert ListAt(lists, key) == Listing(marks, key, |marks|);
    assert (list + lists[key])[r.off..r.off + r.n] == lists[key];
    forall k | 0 <= k < |lists[key]| ensures Marked(marks, lists[key][k]) {
      ListingHas(marks, key, |marks|, lists[key][k]);
    }
  }

  lemma {:induction false} DictIsWhole<T(!new)>(strs: Str, dict: seq<DictRec>, list: seq<T>, lists: map<Str, seq<T>>, marks: seq<map<Str, T>>,
                                                keys: seq<Str>)
    requires Gathered(lists, marks, |marks|) && |dict| == |keys|
    requires forall i, j :: 0 <= i < j < |keys| ==> Less(keys[i], keys[j])
    requires forall key :: key in keys <==> key in lists
    requires forall k :: 0 <= k < |keys| ==> Holds(strs, dict[k].key, keys[k]) && EntryLists(strs, dict[k], list, marks)
    requires forall k :: 0 <= k < |list| ==> Marked(marks, list[k])
    ensures IsDict(strs, dict, list, marks)
  {
    hide Listing, Less, Marked;
    forall i | 0 <= i < |dict| ensures EntryOk(strs, dict[i], |list|) && View(strs, dict[i].key) == keys[i] {
      assert EntryLists(strs, dict[i], list, marks) && Holds(strs, dict[i].key, keys[i]);
    }
    forall key | Listing(marks, key, |marks|) != [] ensures exists i :: 0 <= i < |dict| && Holds(strs, dict[i].key, key) {
      assert ListAt(lists, key) != [];
      assert key in keys;
      var i :| 0 <= i < |keys| && keys[i] == key;
      assert Holds(strs, dict[i].key, key);
    }
  }

  // ---------------------------------------------------------------------------------------------
  // Encoding

  /** How many records of one sort the files hold. */
  ghost function Sum(files: seq<File>, count: File -> nat): nat
  {
    if files == [] then 0 else Sum(files[..|files| - 1], count) + count(files[|files| - 1])
  }

  ghost function CountSymbols(f: File): nat { |f.symbols| }

  ghost function CountRefs(f: File): nat { |f.refs| }

  /** Every symbol and every reference has a 32-bit index that is not the one for none. */
  ghost predicate Indexable(files: seq<File>)
  {
    Sum(files, CountSymbols) < NONE32 && Sum(files, CountRefs) < NONE32
  }

  lemma {:induction false} SumWithout(files: seq<File>, count: File -> nat, k: nat)
    requires k < |files|
    ensures Sum(files, count) == Sum(files[..k] + files[k + 1..], count) + count(files[k])
  {
    var n := |files| - 1;
    var rest := files[..k] + files[k + 1..];
    if k < n {
      SumWithout(files[..n], count, k);
      assert rest[..|rest| - 1] == files[..n][..k] + files[..n][k + 1..];
    } else {
      assert rest == files[..n];
    }
  }

  /** Taking one element out of b leaves what taking the last out of a leaves. */
  lemma {:induction false} TakeOut(a: seq<File>, b: seq<File>, k: nat)
    requires a != [] && multiset(a) == multiset(b) && k < |b| && b[k] == a[|a| - 1]
    ensures multiset(a[..|a| - 1]) == multiset(b[..k] + b[k + 1..])
  {
    var n := |a| - 1;
    assert a == a[..n] + [a[n]];
    assert b == b[..k] + [b[k]] + b[k + 1..];
    assert multiset(a[..n]) == multiset(a) - multiset{a[n]};
  }

  lemma {:induction false} SumOfPermuted(a: seq<File>, b: seq<File>, count: File -> nat)
    requires multiset(a) == multiset(b)
    ensures Sum(a, count) == Sum(b, count)
    decreases |a|
  {
    if a == [] {
      assert |multiset(b)| == 0;
    } else {
      var n := |a| - 1;
      assert a[n] in multiset(b);
      var k :| 0 <= k < |b| && b[k] == a[n];
      TakeOut(a, b, k);
      SumOfPermuted(a[..n], b[..k] + b[k + 1..], count);
      SumWithout(b, count, k);
    }
  }

  lemma {:induction false} TotalIsSum(files: seq<File>)
    ensures SlotCount(SymbolCounts(files)) == Sum(files, CountSymbols)
    ensures SlotCount(RefCounts(files)) == Sum(files, CountRefs)
  {
    if files != [] {
      var n := |files| - 1;
      TotalIsSum(files[..n]);
      assert SymbolCounts(files)[..n] == SymbolCounts(files[..n]);
      assert RefCounts(files)[..n] == RefCounts(files[..n]);
    }
  }

  /** Paths strictly increase. */
  ghost predicate Sorted(files: seq<File>)
  {
    forall i: nat, j: nat :: i < j < |files| ==> Less(files[i].path, files[j].path)
  }

  lemma {:induction false} TwoPlaces(files: seq<File>, f: File)
    requires multiset(files)[f] >= 2
    ensures exists i, j :: 0 <= i < j < |files| && files[i] == f && files[j] == f
  {
    var n := |files| - 1;
    assert files == files[..n] + [files[n]];
    if files[n] == f {
      assert f in multiset(files[..n]);
      var i :| 0 <= i < n && files[..n][i] == f;
      assert files[i] == f && files[n] == f;
    } else {
      TwoPlaces(files[..n], f);
      var i, j :| 0 <= i < j < n && files[..n][i] == f && files[..n][j] == f;
      assert files[i] == f && files[j] == f;
    }
  }

  lemma {:induction false} OccursTwice(files: seq<File>, i: nat, j: nat)
    requires i < j < |files| && files[i] == files[j]
    ensures multiset(files)[files[i]] >= 2
  {
    assert files == files[..j] + [files[j]] + files[j + 1..];
    assert files[..j][i] == files[j];
    assert files[j] in multiset(files[..j]);
  }

  /** A path repeated in one arrangement of the files is repeated in every other. */
  lemma {:induction false} RepeatsTogether(a: seq<File>, b: seq<File>, i: nat, j: nat)
    requires multiset(a) == multiset(b) && i < j < |a| && a[i].path == a[j].path
    ensures exists k, l :: 0 <= k < l < |b| && b[k].path == b[l].path
  {
    if a[i] == a[j] {
      OccursTwice(a, i, j);
      TwoPlaces(b, a[i]);
    } else {
      assert a[i] in multiset(b) && a[j] in multiset(b);
      var k :| 0 <= k < |b| && b[k] == a[i];
      var l :| 0 <= l < |b| && b[l] == a[j];
      if k < l { assert b[k].path == b[l].path; } else { assert l < k && b[l].path == b[k].path; }
    }
  }

  method SortFiles(input: seq<File>) returns (r: Result<seq<File>>)
    ensures r.Ok? ==> multiset(r.value) == multiset(input) && Sorted(r.value)
    ensures r.Err? <==> exists i, j :: 0 <= i < j < |input| && input[i].path == input[j].path
    ensures r.Err? ==> r.error.DuplicatePath?
  {
    var files := SortByKey(input, (f: File) => [Name(f.path)]);
    forall i: nat, j: nat | i < j < |files| ensures AtMost(files[i].path, files[j].path) {
      FirstNameDecides([Name(files[i].path)], [Name(files[j].path)]);
    }
    var i := 1;
    while i < |files|
      invariant 1 <= i && forall k: nat :: 0 < k < i && k < |files| ==> files[k].path != files[k - 1].path
    {
      if files[i].path == files[i - 1].path {
        RepeatsTogether(files, input, i - 1, i);
        return Err(DuplicatePath(files[i].path));
      }
      i := i + 1;
    }
    SortedIsDistinct(files);
    forall i: nat, j: nat | i < j < |input| ensures input[i].path != input[j].path {
      if input[i].path == input[j].path {
        RepeatsTogether(input, files, i, j);
        var k, l :| 0 <= k < l < |files| && files[k].path == files[l].path;
        Irreflexive(files[k].path);
        assert false;
      }
    }
    return Ok(files);
  }

  lemma {:induction false} SortedIsDistinct(files: seq<File>)
    requires forall i: nat, j: nat :: i < j < |files| ==> AtMost(files[i].path, files[j].path)
    requires forall k: nat :: 0 < k < |files| ==> files[k].path != files[k - 1].path
    ensures Sorted(files)
  {
    forall i: nat, j: nat | i < j < |files| ensures Less(files[i].path, files[j].path) {
      assert Less(files[i].path, files[i + 1].path);
      if i + 1 < j { LessAtMost(files[i].path, files[i + 1].path, files[j].path); }
    }
  }

  /** Source lines are 32-bit numbers. */
  ghost predicate LinesFit(files: seq<File>)
  {
    forall i: nat, k: nat :: i < |files| && k < |files[i].refs| ==> 0 <= files[i].refs[k].line < TWO32
  }

  lemma {:induction false} SymbolsInOrder(files: seq<File>, plan: Plan, t: Tables, i: nat, j: nat)
    requires Written(files, plan, t) && ByKey(plan.syms, SymbolKey(files)) && i < j < |t.syms|
    ensures SymbolOk(t, i) && SymbolOk(t, j) && AtMost(SymbolName(t, i), SymbolName(t, j))
  {
    hide KeyBefore, AtMost, Lists, LinkTo;
    WrittenSymbolIsOk(files, plan, t, i);
    WrittenSymbolIsOk(files, plan, t, j);
    assert SymbolWritten(files, plan, t, i) && SymbolWritten(files, plan, t, j);
    SlotIsListed(files, plan, i);
    SlotIsListed(files, plan, j);
    assert !KeyBefore(SymbolKey(files)(plan.syms[j]), SymbolKey(files)(plan.syms[i]));
    FirstNameDecides(SymbolKey(files)(plan.syms[i]), SymbolKey(files)(plan.syms[j]));
  }

  lemma {:induction false} RefsInOrder(files: seq<File>, plan: Plan, t: Tables, i: nat, j: nat)
    requires Written(files, plan, t) && ByKey(plan.refs, RefKey(files)) && i < j < |t.refs|
    ensures RefRecOk(t, i) && RefRecOk(t, j) && AtMost(RefName(t, i), RefName(t, j))
  {
    hide KeyBefore, AtMost, Lists, LinkTo;
    WrittenRefIsOk(files, plan, t, i);
    WrittenRefIsOk(files, plan, t, j);
    assert RefWritten(files, plan, t, i) && RefWritten(files, plan, t, j);
    RefSlotIsListed(files, plan, i);
    RefSlotIsListed(files, plan, j);
    assert !KeyBefore(RefKey(files)(plan.refs[j]), RefKey(files)(plan.refs[i]));
    FirstNameDecides(RefKey(files)(plan.refs[i]), RefKey(files)(plan.refs[j]));
  }

  lemma {:induction false} SymbolIs(files: seq<File>, plan: Plan, t: Tables, i: nat)
    requires Written(files, plan, t) && i < |t.syms| && forall f :: f in files ==> Fitting(f)
    ensures var slot := plan.syms[i]; slot.file < |files| && slot.local < |files[slot.file].symbols| && SymbolOk(t, i)
    ensures var x := SymbolAt(files, plan.syms[i]).value; SymbolName(t, i) == x.name && t.syms[i].line == x.line && t.syms[i].file == plan.syms[i].file
  {
    hide Lists, LinkTo;
    WrittenSymbolIsOk(files, plan, t, i);
    assert SymbolWritten(files, plan, t, i);
    SlotIsListed(files, plan, i);
    assert Fitting(files[plan.syms[i].file]);
  }

  lemma {:induction false} SymbolsRiseThere(files: seq<File>, plan: Plan, t: Tables, i: nat, j: nat)
    requires Written(files, plan, t) && ByKey(plan.syms, SymbolKey(files)) && i < j < |t.syms| && forall f :: f in files ==> Fitting(f)
    ensures SymbolOk(t, i) && SymbolOk(t, j) && SymbolsRise(t, i, j)
  {
    assert |t.syms| == |plan.syms|;
    hide KeyBefore, Less, SymbolOk, SymbolName, Written, Fitting;
    SymbolIs(files, plan, t, i);
    SymbolIs(files, plan, t, j);
    var a, b := plan.syms[i], plan.syms[j];
    var x, y := files[a.file].symbols[a.local], files[b.file].symbols[b.local];
    assert !KeyBefore(SymbolKey(files)(b), SymbolKey(files)(a));
    SymbolKeysCompare(x.name, a.file, x.line, y.name, b.file, y.line);
  }

  lemma {:induction false} RefIs(files: seq<File>, plan: Plan, t: Tables, i: nat)
    requires Written(files, plan, t) && i < |t.refs| && forall f :: f in files ==> Fitting(f)
    ensures var slot := plan.refs[i]; slot.file < |files| && slot.local < |files[slot.file].refs| && RefRecOk(t, i)
    ensures var x, r := RefAt(files, plan.refs[i]).value, t.refs[i];
      && RefName(t, i) == x.name && View(t.strs, r.qualifier) == x.qualifier
      && r.file == plan.refs[i].file && r.line == x.line && r.col == x.col && r.kind == x.kind
  {
    hide Lists, LinkTo;
    WrittenRefIsOk(files, plan, t, i);
    assert RefWritten(files, plan, t, i);
    RefSlotIsListed(files, plan, i);
    assert Fitting(files[plan.refs[i].file]);
  }

  lemma {:induction false} RefsRiseThere(files: seq<File>, plan: Plan, t: Tables, i: nat, j: nat)
    requires Written(files, plan, t) && ByKey(plan.refs, RefKey(files)) && i < j < |t.refs| && forall f :: f in files ==> Fitting(f)
    ensures RefRecOk(t, i) && RefRecOk(t, j) && RefsRise(t, i, j)
  {
    assert |t.refs| == |plan.refs|;
    hide KeyBefore, Less, RefName, Written, Fitting;
    RefIs(files, plan, t, i);
    RefIs(files, plan, t, j);
    var a, b := plan.refs[i], plan.refs[j];
    var x, y := files[a.file].refs[a.local], files[b.file].refs[b.local];
    assert !KeyBefore(RefKey(files)(b), RefKey(files)(a));
    RefKeysCompare(x, a.file, y, b.file);
  }

  /** When positions fit, all symbols and all references are in order. */
  lemma {:induction false} EncodedRise(files: seq<File>, plan: Plan, t: Tables)
    requires Written(files, plan, t) && ByKey(plan.syms, SymbolKey(files)) && ByKey(plan.refs, RefKey(files))
    requires forall f :: f in files ==> Fitting(f)
    ensures Valid(t) && AllRise(t)
  {
    hide Written, ByKey, Fitting, SymbolsRise, RefsRise, SymbolOk, RefRecOk;
    WrittenIsValid(files, plan, t);
    forall i: nat, j: nat | i < j < |t.syms| ensures SymbolOk(t, i) && SymbolOk(t, j) && SymbolsRise(t, i, j) {
      SymbolsRiseThere(files, plan, t, i, j);
    }
    forall i: nat, j: nat | i < j < |t.refs| ensures RefRecOk(t, i) && RefRecOk(t, j) && RefsRise(t, i, j) {
      RefsRiseThere(files, plan, t, i, j);
    }
  }

  lemma {:induction false} EnclosingCompares(a: int, la: int, i: int, b: int, lb: int, j: int)
    requires !KeyBefore([Num(b), Num(lb), Num(j)], [Num(a), Num(la), Num(i)]) && i != j
    ensures a < b || (a == b && (la < lb || (la == lb && i < j)))
  {
    hide KeyBefore;
    assert [Num(b), Num(lb), Num(j)] == [Num(b)] + [Num(lb), Num(j)] && [Num(a), Num(la), Num(i)] == [Num(a)] + [Num(la), Num(i)];
    KeysJoin([Num(b)], [Num(lb), Num(j)], [Num(a)], [Num(la), Num(i)]);
    TwoParts([Num(lb), Num(j)], [Num(la), Num(i)]);
    OneNumber(b, a);
  }

  lemma {:induction false} EnclosedInOrder(files: seq<File>, plan: Plan, t: Tables, i: nat, j: nat)
    requires Written(files, plan, t) && LinesFit(files) && ByKey(t.refsByEnclosing, EnclosingKey(files, plan, t.refs))
    requires Distinct(t.refsByEnclosing) && i < j < |t.refsByEnclosing|
    ensures EnclosedBefore(t.refs, t.refsByEnclosing[i], t.refsByEnclosing[j])
  {
    hide KeyBefore, Lists, LinkTo;
    var a, b := t.refsByEnclosing[i], t.refsByEnclosing[j];
    assert RefWritten(files, plan, t, a) && RefWritten(files, plan, t, b);
    RefSlotIsListed(files, plan, a);
    RefSlotIsListed(files, plan, b);
    var key := EnclosingKey(files, plan, t.refs);
    assert !KeyBefore(key(b), key(a));
    EnclosingCompares(t.refs[a].enclosing, files[plan.refs[a].file].refs[plan.refs[a].local].line, a,
                      t.refs[b].enclosing, files[plan.refs[b].file].refs[plan.refs[b].local].line, b);
  }

  lemma {:induction false} PackagesInOrder(files: seq<File>, plan: Plan, t: Tables, i: nat, j: nat)
    requires Written(files, plan, t) && i < j < |t.pkgFiles| && NamedBefore(PackageOf(files), t.pkgFiles[i], t.pkgFiles[j])
    ensures t.pkgFiles[i] < |t.files| && t.pkgFiles[j] < |t.files| && FileOk(t, t.pkgFiles[i]) && FileOk(t, t.pkgFiles[j])
    ensures Less(Package(t, t.pkgFiles[i]), Package(t, t.pkgFiles[j]))
      || (Package(t, t.pkgFiles[i]) == Package(t, t.pkgFiles[j]) && t.pkgFiles[i] < t.pkgFiles[j])
  {
    hide Less, Listed;
    var a, b := t.pkgFiles[i], t.pkgFiles[j];
    assert a < |files| && b < |files|;
    assert FileWritten(files, plan, t, a) && FileWritten(files, plan, t, b);
    WrittenFileIsOk(files, plan, t, a);
    WrittenFileIsOk(files, plan, t, b);
  }

  lemma {:induction false} ImportsInOrder(files: seq<File>, plan: Plan, t: Tables, i: nat, j: nat)
    requires Written(files, plan, t) && i < j < |t.impByPath| && NamedBefore(ImportPathOf(files, plan), t.impByPath[i], t.impByPath[j])
    ensures t.impByPath[i] < |t.imps| && t.impByPath[j] < |t.imps| && ImportOk(t, t.impByPath[i]) && ImportOk(t, t.impByPath[j])
    ensures Less(ImportPath(t, t.impByPath[i]), ImportPath(t, t.impByPath[j]))
      || (ImportPath(t, t.impByPath[i]) == ImportPath(t, t.impByPath[j]) && t.impByPath[i] < t.impByPath[j])
  {
    hide Less, Lists;
    var a, b := t.impByPath[i], t.impByPath[j];
    assert ImportWritten(files, plan, t, a) && ImportWritten(files, plan, t, b);
    ImportSlotIsListed(files, plan, a);
    ImportSlotIsListed(files, plan, b);
    WrittenImportIsOk(files, plan, t, a);
    WrittenImportIsOk(files, plan, t, b);
  }

  /** The index lists are in the orders of their keys. */
  ghost predicate Ordered(files: seq<File>, plan: Plan, t: Tables)
    requires |t.refs| == |plan.refs|
  {
    && ByKey(plan.syms, SymbolKey(files)) && ByKey(plan.refs, RefKey(files))
    && ByKey(t.refsByEnclosing, EnclosingKey(files, plan, t.refs)) && Distinct(t.refsByEnclosing)
    && (forall g: nat :: g < |t.refs| ==> (g in t.refsByEnclosing <==> t.refs[g].enclosing != NONE32))
    && Permutes(t.pkgFiles, |files|)
    && (forall i, j :: 0 <= i < j < |t.pkgFiles| ==> NamedBefore(PackageOf(files), t.pkgFiles[i], t.pkgFiles[j]))
    && Permutes(t.impByPath, |plan.imps|)
    && (forall i, j :: 0 <= i < j < |t.impByPath| ==> NamedBefore(ImportPathOf(files, plan), t.impByPath[i], t.impByPath[j]))
  }

  /** What encoding puts in order is in the order lookups rely on. */
  lemma {:induction false} EncodedIsInOrder(files: seq<File>, plan: Plan, t: Tables)
    requires Written(files, plan, t) && LinesFit(files) && Ordered(files, plan, t)
    ensures Valid(t) && InOrder(t)
  {
    hide LinesFit, SymbolOk, RefRecOk, EnclosedBefore, Listed, Less, AtMost, NamedBefore, SymbolName, RefName, Package, ImportPath;
    hide IsSymbol, IsRef, IsHint, IsImport, IsExport, IsFile, FileOk, ImportOk, SearchOk, KeyBefore;
    WrittenIsValid(files, plan, t);
    forall i: nat, j: nat | i < j < |t.syms| ensures SymbolOk(t, i) && SymbolOk(t, j) && AtMost(SymbolName(t, i), SymbolName(t, j)) {
      SymbolsInOrder(files, plan, t, i, j);
    }
    forall i: nat, j: nat | i < j < |t.refs| ensures RefRecOk(t, i) && RefRecOk(t, j) && AtMost(RefName(t, i), RefName(t, j)) {
      RefsInOrder(files, plan, t, i, j);
    }
    forall i, j | 0 <= i < j < |t.refsByEnclosing| ensures EnclosedBefore(t.refs, t.refsByEnclosing[i], t.refsByEnclosing[j]) {
      EnclosedInOrder(files, plan, t, i, j);
    }
    forall i, j | 0 <= i < j < |t.pkgFiles|
      ensures t.pkgFiles[i] < |t.files| && t.pkgFiles[j] < |t.files| && FileOk(t, t.pkgFiles[i]) && FileOk(t, t.pkgFiles[j])
      ensures Less(Package(t, t.pkgFiles[i]), Package(t, t.pkgFiles[j]))
        || (Package(t, t.pkgFiles[i]) == Package(t, t.pkgFiles[j]) && t.pkgFiles[i] < t.pkgFiles[j])
    {
      PackagesInOrder(files, plan, t, i, j);
    }
    forall i, j | 0 <= i < j < |t.impByPath|
      ensures t.impByPath[i] < |t.imps| && t.impByPath[j] < |t.imps| && ImportOk(t, t.impByPath[i]) && ImportOk(t, t.impByPath[j])
      ensures Less(ImportPath(t, t.impByPath[i]), ImportPath(t, t.impByPath[j]))
        || (ImportPath(t, t.impByPath[i]) == ImportPath(t, t.impByPath[j]) && t.impByPath[i] < t.impByPath[j])
    {
      ImportsInOrder(files, plan, t, i, j);
    }
  }

  /** Encode: the files, sorted by path, as tables. */
  method Encode(lang: Language, input: seq<File>) returns (r: Result<Tables>, ghost files: seq<File>, ghost plan: Plan)
    requires Indexable(input)
    ensures r.Ok? ==> multiset(files) == multiset(input) && Written(files, plan, r.value) && Searchable(lang, files, plan.syms, r.value)
    ensures r.Ok? ==> |r.value.strs| < 0x8000_0000 && forall f :: f in input ==> FileStorable(f)
    ensures r.Ok? ==> Valid(r.value) && |r.value.files| == |files|
    ensures r.Ok? ==> forall i: nat :: i < |files| && R.Sizes(files[i]) ==> R.Returns(files[i], Decoded(r.value, i))
    ensures r.Ok? && LinesFit(files) ==> InOrder(r.value)
    ensures r.Ok? && (forall f :: f in files ==> Fitting(f)) ==> AllRise(r.value)
    ensures (exists i, j :: 0 <= i < j < |input| && input[i].path == input[j].path) ==> r.Err?
    ensures r.Err? && r.error != TooLong ==>
      (exists i, j :: 0 <= i < j < |input| && input[i].path == input[j].path) || (exists f :: f in input && !FileStorable(f))
    ensures r.Err? && r.error == TooLong ==> TooMuch(lang, input)
  {
    hide FileStorable, TooMuch, Searchable, ByKey, Written, LinesFit, IsGroup, Valid, Decoded, R.Returns, R.Sizes, InOrder, AllRise, Fitting;
    files, plan := [], Plan([], [], [], [], []);
    var sorting := SortFiles(input);
    if sorting.Err? { return Err(sorting.error), files, plan; }
    var sorted := sorting.value;
    files := sorted;
    SumOfPermuted(input, sorted, CountSymbols);
    SumOfPermuted(input, sorted, CountRefs);
    TotalIsSum(sorted);
    var symSlots := AllSlots(SymbolCounts(sorted));
    symSlots := SortByKey(symSlots, SymbolKey(sorted));
    var refSlots := AllSlots(RefCounts(sorted));
    refSlots := SortByKey(refSlots, RefKey(sorted));
    var impSlots, impOffs := GroupedSlots(ImportCounts(sorted), ImportPlaces(sorted));
    var expSlots, expOffs := GroupedSlots(ExportCounts(sorted), ExportPlaces(sorted));
    var hintSlots, hintOffs := GroupedSlots(HintCounts(sorted), HintPlaces(sorted));
    var order := Plan(symSlots, impSlots, refSlots, expSlots, hintSlots);
    var starts := Starts(impOffs, expOffs, hintOffs);
    plan := order;
    r := EncodePlanned(lang, sorted, order, starts);
    SameStorable(input, sorted);
    if r.Err? {
      if r.error == TooLong { SameTexts(lang, input, sorted); }
    } else {
      WrittenAreStorable(sorted, order, r.value);
      AllReturn(sorted, order, r.value);
      if forall f :: f in sorted ==> Fitting(f) { EncodedRise(sorted, order, r.value); }
    }
  }

  lemma {:induction false} SameStorable(input: seq<File>, files: seq<File>)
    requires multiset(files) == multiset(input)
    ensures (exists f :: f in input && !FileStorable(f)) <==> exists f :: f in files && !FileStorable(f)
  {
    hide FileStorable;
    assert forall f :: f in files <==> f in multiset(files);
    assert forall f :: f in input <==> f in multiset(input);
  }

  lemma {:induction false} SameTexts(lang: Language, input: seq<File>, files: seq<File>)
    requires multiset(files) == multiset(input) && TooMuch(lang, files)
    ensures TooMuch(lang, input)
  {
    hide FactText, TermText;
    assert forall f :: f in files <==> f in multiset(files);
    assert forall f :: f in input <==> f in multiset(input);
    var words: seq<Str> :| Distinct(words) && TotalBytes(words) >= 0x8000_0000 && forall w :: w in words ==> IsText(lang, files, w);
    forall w | w in words ensures IsText(lang, input, w) { assert IsText(lang, files, w); }
  }

  /** What was written could be stored. */
  lemma {:induction false} WrittenAreStorable(files: seq<File>, plan: Plan, t: Tables)
    requires Written(files, plan, t)
    ensures forall f :: f in files ==> FileStorable(f)
  {
    forall i: nat | i < |files| ensures FileStorable(files[i]) { WrittenIsStorable(files, plan, t, i); }
  }

  lemma {:induction false} WrittenIsStorable(files: seq<File>, plan: Plan, t: Tables, i: nat)
    requires Written(files, plan, t) && i < |files|
    ensures FileStorable(files[i])
  {
    hide FileWritten, ImportWritten, ExportWritten, HintWritten, SearchOk, PairsOk;
    var f := files[i];
    forall k: nat | k < |f.symbols| ensures f.symbols[k].kind < 26 && f.symbols[k].visibility < 6 && Countable(f.symbols[k].params) {
      assert Slot(i, k) in plan.syms;
      assert SymbolWritten(files, plan, t, GlobalOf(plan.syms, Slot(i, k)));
    }
    forall k: nat | k < |f.refs| ensures f.refs[k].kind < 8 {
      assert Slot(i, k) in plan.refs;
      assert RefWritten(files, plan, t, GlobalOf(plan.refs, Slot(i, k)));
    }
    forall k: nat | k < |f.imports| ensures f.imports[k].kind < 7 { ImportStorable(files, plan, t, i, k); }
  }

  lemma {:induction false} ImportStorable(files: seq<File>, plan: Plan, t: Tables, i: nat, k: nat)
    requires Written(files, plan, t) && i < |files| && k < |files[i].imports|
    ensures files[i].imports[k].kind < 7
  {
    assert Slot(i, k) in plan.imps;
    assert ImportWritten(files, plan, t, GlobalOf(plan.imps, Slot(i, k)));
  }

  lemma {:induction false} AllReturn(files: seq<File>, plan: Plan, t: Tables)
    requires Written(files, plan, t)
    ensures Valid(t) && |t.files| == |files|
    ensures forall i: nat :: i < |files| && R.Sizes(files[i]) ==> R.Returns(files[i], Decoded(t, i))
  {
    assert |t.files| == |files|;
    hide Written, Valid, R.Returns, Decoded, R.Sizes;
    WrittenIsValid(files, plan, t);
    forall i: nat | i < |files| && R.Sizes(files[i]) ensures R.Returns(files[i], Decoded(t, i)) { R.FileRoundTrips(files, plan, t, i); }
  }

  /** The tables for files in path order, in a planned order. */
  method EncodePlanned(lang: Language, files: seq<File>, plan: Plan, starts: Starts) returns (r: Result<Tables>)
    requires Sorted(files) && Listed(files, plan) && ByKey(plan.syms, SymbolKey(files)) && ByKey(plan.refs, RefKey(files))
    requires forall i: nat :: i < |files| ==> StartsAt(files, plan, starts, i)
    ensures r.Ok? ==> Written(files, plan, r.value) && Searchable(lang, files, plan.syms, r.value) && |r.value.strs| < MAX_STRINGS
    ensures r.Ok? && LinesFit(files) ==> Valid(r.value) && InOrder(r.value)
    ensures r.Err? && r.error != TooLong ==> exists f :: f in files && !FileStorable(f)
    ensures r.Err? && r.error == TooLong ==> TooMuch(lang, files)
  {
    hide FileStorable, IsSymbol, IsRef, IsHint, IsImport, IsExport, IsFile, StartsAt, Lists, IsGlobal, ByKey, LinesFit, Valid, InOrder;
    hide NamedBefore, IsSearch, Searchable, SearchOk, PairOk, Written, Ordered, Less, Spells, Allows, AllowsTerms, Texts, TooMuch, Holds, Encoder.Valid;
    var e := new Encoder(Texts(lang, files));
    TextsAllowed(lang, files);
    var syms := Globals(plan.syms) by { ListsAreDistinct(files, plan); }
    var symRecs := e.WriteSymbols(files, plan, syms);
    if symRecs.Err? { return Err(symRecs.error); }
    var s1 := e.strs;
    var refs := Globals(plan.refs) by { ListsAreDistinct(files, plan); }
    var refRecs := e.WriteRefs(files, plan, syms, refs);
    if refRecs.Err? { return Err(refRecs.error); }
    var s2 := e.strs;
    var enclosing := EnclosingIndex(files, plan, refRecs.value);
    var impRecs, impNames := e.WriteImports(files, plan);
    if impRecs.Err? { return Err(impRecs.error); }
    var s3 := e.strs;
    var byPath := IndexByName(|plan.imps|, ImportPathOf(files, plan));
    var expRecs := e.WriteExports(files, plan);
    var s4 := e.strs;
    var hintRecs := e.WriteHints(files, plan, syms);
    var s5 := e.strs;
    var fileRecs, symByFile, refsByFile := e.WriteFiles(files, plan, syms, refs, starts);
    var s6 := e.strs;
    var search := e.WriteSearch(lang, files, plan);
    var packages := IndexByName(|files|, PackageOf(files));
    if |e.strs| >= MAX_STRINGS {
      IsTooMuch(lang, files, e);
      return Err(TooLong);
    }
    var t := Tables(e.strs, fileRecs, symRecs.value, symByFile, impRecs.value, byPath, refRecs.value, enclosing, refsByFile,
                    search.docs, search.total, search.docLen, search.terms, search.posts, search.names, search.tris, search.triPost,
                    packages, impNames, expRecs, hintRecs);
    RecordsStay(files, plan, t, s1, s2, s3, s4, s5, s6);
    SearchStays(lang, files, plan.syms, e.strs, t, search);
    PairsStayOk(s3, e.strs, impNames);
    SearchableIsOk(lang, files, plan.syms, t);
    WholeIsWritten(files, plan, t);
    r := Ok(t);
    if LinesFit(files) {
      ListsAreOrdered(files, plan, t);
      EncodedIsInOrder(files, plan, t);
    }
  }

  lemma {:induction false} IsTooMuch(lang: Language, files: seq<File>, e: Encoder)
    requires e.Valid() && e.mine == Texts(lang, files) && |e.strs| >= MAX_STRINGS
    ensures TooMuch(lang, files)
  {
    hide IsText, Holds;
    forall w | w in e.words ensures IsText(lang, files, w) { assert w in e.mine; }
  }

  /** What was written while the strings were shorter still stands. */
  lemma {:induction false} RecordsStay(files: seq<File>, plan: Plan, t: Tables, s1: Str, s2: Str, s3: Str, s4: Str, s5: Str, s6: Str)
    requires Listed(files, plan) && s1 <= t.strs && s2 <= t.strs && s3 <= t.strs && s4 <= t.strs && s5 <= t.strs && s6 <= t.strs
    requires |t.syms| == |plan.syms| && forall g: nat :: g < |plan.syms| ==> IsSymbol(files, plan, s1, t.syms[g], g)
    requires |t.refs| == |plan.refs| && forall g: nat :: g < |plan.refs| ==> IsRef(files, plan, s2, t.refs[g], g)
    requires |t.imps| == |plan.imps| && forall g: nat :: g < |plan.imps| ==> IsImport(files, plan, s3, t.impNames, t.imps[g], g)
    requires |t.exps| == |plan.exps| && forall g: nat :: g < |plan.exps| ==> IsExport(files, plan, s4, t.exps[g], g)
    requires |t.hints| == |plan.hints| && forall g: nat :: g < |plan.hints| ==> IsHint(files, plan, s5, t.hints[g], g)
    requires |t.files| == |files| && forall i: nat :: i < |files| ==> IsFile(files, plan, s6, t.symByFile, t.refsByFile, t.files[i], i)
    ensures forall i: nat :: i < |files| ==> FileWritten(files, plan, t, i)
    ensures forall g: nat :: g < |plan.syms| ==> SymbolWritten(files, plan, t, g)
    ensures forall g: nat :: g < |plan.imps| ==> ImportWritten(files, plan, t, g)
    ensures forall g: nat :: g < |plan.refs| ==> RefWritten(files, plan, t, g)
    ensures forall g: nat :: g < |plan.exps| ==> ExportWritten(files, plan, t, g)
    ensures forall g: nat :: g < |plan.hints| ==> HintWritten(files, plan, t, g)
  {
    hide IsSymbol, IsRef, IsHint, IsImport, IsExport, IsFile, Listed;
    forall g: nat | g < |plan.syms| ensures SymbolWritten(files, plan, t, g) { SymbolStays(files, plan, s1, t.strs, t.syms[g], g); }
    forall g: nat | g < |plan.refs| ensures RefWritten(files, plan, t, g) { RefStays(files, plan, s2, t.strs, t.refs[g], g); }
    forall g: nat | g < |plan.imps| ensures ImportWritten(files, plan, t, g) {
      ImportStays(files, plan, s3, t.strs, t.impNames, t.impNames, t.imps[g], g);
    }
    forall g: nat | g < |plan.exps| ensures ExportWritten(files, plan, t, g) { ExportStays(files, plan, s4, t.strs, t.exps[g], g); }
    forall g: nat | g < |plan.hints| ensures HintWritten(files, plan, t, g) { HintStays(files, plan, s5, t.strs, t.hints[g], g); }
    forall i: nat | i < |files| ensures FileWritten(files, plan, t, i) {
      FileStays(files, plan, s6, t.strs, t.symByFile, t.symByFile, t.refsByFile, t.refsByFile, t.files[i], i);
    }
  }

  lemma {:induction false} SearchableIsOk(lang: Language, files: seq<File>, slots: seq<Slot>, t: Tables)
    requires Searchable(lang, files, slots, t) && |t.syms| == |slots| && |t.pkgFiles| == |t.files| && AllBelow(t.pkgFiles, |t.files|)
    ensures SearchOk(t)
  {
    hide DictOk, Listing, Less, EntryLists, Declares, WeightsAt, GramMarks, MarksAt;
    var terms, grams := TermMarks(lang, files, slots), GramMarks(LowerNames(t));
    forall k | 0 <= k < |t.posts| ensures t.posts[k].sym < |t.syms| {
      assert Marked(terms, t.posts[k]);
      var g, key :| 0 <= g < |terms| && key in terms[g] && terms[g][key] == t.posts[k];
      MarkIs(lang, files, slots, g, key);
    }
    forall k | 0 <= k < |t.triPost| ensures t.triPost[k] < |t.names| {
      assert Marked(grams, t.triPost[k]);
      var i, key :| 0 <= i < |grams| && key in grams[i] && grams[i][key] == t.triPost[k];
      GramMarked(LowerNames(t), i, key);
    }
  }

  lemma {:induction false} MarkIs(lang: Language, files: seq<File>, slots: seq<Slot>, g: nat, key: Str)
    requires g < |slots| && key in TermMarks(lang, files, slots)[g]
    ensures TermMarks(lang, files, slots)[g][key].sym == g
  {
    assert TermMarks(lang, files, slots)[g] == MarksAt(lang, files, slots[g], g);
  }

  lemma {:induction false} ListsAreOrdered(files: seq<File>, plan: Plan, t: Tables)
    requires |t.refs| == |plan.refs| && ByKey(plan.syms, SymbolKey(files)) && ByKey(plan.refs, RefKey(files))
    requires ByKey(t.refsByEnclosing, EnclosingKey(files, plan, t.refs)) && Distinct(t.refsByEnclosing)
    requires forall g: nat :: g < |t.refs| ==> (g in t.refsByEnclosing <==> t.refs[g].enclosing != NONE32)
    requires Permutes(t.pkgFiles, |files|) && Permutes(t.impByPath, |plan.imps|)
    requires forall i, j :: 0 <= i < j < |files| ==> NamedBefore(PackageOf(files), t.pkgFiles[i], t.pkgFiles[j])
    requires forall i, j :: 0 <= i < j < |plan.imps| ==> NamedBefore(ImportPathOf(files, plan), t.impByPath[i], t.impByPath[j])
    ensures Ordered(files, plan, t)
  {
    hide ByKey, NamedBefore;
  }

  lemma {:induction false} WholeIsWritten(files: seq<File>, plan: Plan, t: Tables)
    requires Sorted(files) && Listed(files, plan)
    requires |t.files| == |files| && |t.syms| == |plan.syms| && |t.imps| == |plan.imps| && |t.refs| == |plan.refs|
    requires |t.exps| == |plan.exps| && |t.hints| == |plan.hints|
    requires forall i: nat :: i < |files| ==> FileWritten(files, plan, t, i)
    requires forall g: nat :: g < |plan.syms| ==> SymbolWritten(files, plan, t, g)
    requires forall g: nat :: g < |plan.imps| ==> ImportWritten(files, plan, t, g)
    requires forall g: nat :: g < |plan.refs| ==> RefWritten(files, plan, t, g)
    requires forall g: nat :: g < |plan.exps| ==> ExportWritten(files, plan, t, g)
    requires forall g: nat :: g < |plan.hints| ==> HintWritten(files, plan, t, g)
    requires PairsOk(t.strs, t.impNames) && SearchOk(t) && AllBelow(t.symByFile, |t.syms|) && AllBelow(t.impByPath, |t.imps|)
    requires AllBelow(t.refsByEnclosing, |t.refs|) && AllBelow(t.refsByFile, |t.refs|)
    ensures Written(files, plan, t)
  {
    hide FileWritten, SymbolWritten, ImportWritten, RefWritten, ExportWritten, HintWritten, Listed, SearchOk, Less;
  }

  lemma {:induction false} ListsAreDistinct(files: seq<File>, plan: Plan)
    requires Listed(files, plan)
    ensures Distinct(plan.syms) && Distinct(plan.refs)
  {
  }
}
