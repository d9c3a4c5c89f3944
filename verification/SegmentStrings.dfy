/** Records written while the string table was shorter hold the same strings once it has grown. */
module SegmentStrings {
  import opened Common
  import opened Order
  import opened Sorting
  import opened SegmentRecords
  import opened SegmentTables
  import opened SegmentSearch
  import opened SegmentOrders

  lemma {:induction false} HoldsStays(a: Str, b: Str, r: StrRef, s: Str)
    requires a <= b && Holds(a, r, s)
    ensures Holds(b, r, s)
  {
    assert r.n > 0 ==> a[r.off..r.off + r.n] == b[r.off..r.off + r.n];
  }

  lemma {:induction false} SymbolStays(files: seq<File>, plan: Plan, a: Str, b: Str, r: SymRec, g: nat)
    requires Listed(files, plan) && g < |plan.syms| && a <= b && IsSymbol(files, plan, a, r, g)
    ensures IsSymbol(files, plan, b, r, g)
  {
    hide LinkTo, Lists, Holds, U32;
    assert plan.syms[g] in plan.syms;
    var slot := plan.syms[g];
    SlotIsListed(files, plan, g);
    var s := files[slot.file].symbols[slot.local];
    HoldsStays(a, b, r.name, s.name);
    HoldsStays(a, b, r.receiver, s.receiver);
    HoldsStays(a, b, r.signature, s.signature);
    HoldsStays(a, b, r.doc, s.doc);
    HoldsStays(a, b, r.paramList, if s.params.known then s.paramList else []);
  }

  lemma {:induction false} RefStays(files: seq<File>, plan: Plan, a: Str, b: Str, r: RefRec, g: nat)
    requires Listed(files, plan) && g < |plan.refs| && a <= b && IsRef(files, plan, a, r, g)
    ensures IsRef(files, plan, b, r, g)
  {
    hide LinkTo, Lists, Holds, U32;
    RefSlotIsListed(files, plan, g);
    var x := files[plan.refs[g].file].refs[plan.refs[g].local];
    HoldsStays(a, b, r.name, x.name);
    HoldsStays(a, b, r.qualifier, x.qualifier);
    HoldsStays(a, b, r.argTypes, x.argTypes);
  }

  lemma {:induction false} HintStays(files: seq<File>, plan: Plan, a: Str, b: Str, r: HintRec, g: nat)
    requires Listed(files, plan) && g < |plan.hints| && a <= b && IsHint(files, plan, a, r, g)
    ensures IsHint(files, plan, b, r, g)
  {
    hide LinkTo, Lists, Holds, U32;
    HintSlotIsListed(files, plan, g);
    var h := files[plan.hints[g].file].hints[plan.hints[g].local];
    HoldsStays(a, b, r.name, h.name);
    HoldsStays(a, b, r.kind, h.kind);
  }

  lemma {:induction false} PairStays(a: Str, b: Str, r: PairRec, x: Str, y: Str)
    requires a <= b && IsPair(a, r, x, y)
    ensures IsPair(b, r, x, y)
  {
    hide Holds;
    HoldsStays(a, b, r.first, x);
    HoldsStays(a, b, r.second, y);
  }

  lemma {:induction false} ImportStays(files: seq<File>, plan: Plan, a: Str, b: Str, na: seq<PairRec>, nb: seq<PairRec>, r: ImportRec, g: nat)
    requires Listed(files, plan) && g < |plan.imps| && a <= b && na <= nb && IsImport(files, plan, a, na, r, g)
    ensures IsImport(files, plan, b, nb, r, g)
  {
    hide Lists, Holds, U32, IsPair;
    ImportSlotIsListed(files, plan, g);
    var x := files[plan.imps[g].file].imports[plan.imps[g].local];
    HoldsStays(a, b, r.path, x.path);
    HoldsStays(a, b, r.name, x.name);
    forall k | 0 <= k < |x.names| ensures IsPair(b, nb[r.namesOff + k], x.names[k].name, x.names[k].alias) {
      PairStays(a, b, na[r.namesOff + k], x.names[k].name, x.names[k].alias);
    }
  }

  lemma {:induction false} ExportStays(files: seq<File>, plan: Plan, a: Str, b: Str, r: ExportRec, g: nat)
    requires Listed(files, plan) && g < |plan.exps| && a <= b && IsExport(files, plan, a, r, g)
    ensures IsExport(files, plan, b, r, g)
  {
    hide Lists, Holds, U32;
    ExportSlotIsListed(files, plan, g);
    var x := files[plan.exps[g].file].exports[plan.exps[g].local];
    HoldsStays(a, b, r.name, x.name);
    HoldsStays(a, b, r.source, x.source);
    HoldsStays(a, b, r.sourceName, x.sourceName);
  }

  lemma {:induction false} DictStays<T(!new)>(a: Str, b: Str, dict: seq<DictRec>, list: seq<T>, marks: seq<map<Str, T>>)
    requires a <= b && IsDict(a, dict, list, marks)
    ensures IsDict(b, dict, list, marks)
  {
    hide Less, Listing, Marked;
    forall i | 0 <= i < |dict|
      ensures EntryLists(a, dict[i], list, marks) && EntryLists(b, dict[i], list, marks) && View(a, dict[i].key) == View(b, dict[i].key)
    {
      HoldsStays(a, b, dict[i].key, View(a, dict[i].key));
    }
  }

  lemma {:induction false} FileStays(files: seq<File>, plan: Plan, a: Str, b: Str, sa: seq<nat>, sb: seq<nat>,
                                     ra: seq<nat>, rb: seq<nat>, r: FileRec, i: nat)
    requires i < |files| && a <= b && sa <= sb && ra <= rb && IsFile(files, plan, a, sa, ra, r, i)
    ensures IsFile(files, plan, b, sb, rb, r, i)
  {
    hide Holds, IsIndex, IsGroup, U64, FileFlags;
    var f := files[i];
    HoldsStays(a, b, r.path, f.path);
    HoldsStays(a, b, r.package, f.package);
    HoldsStays(a, b, r.pkgName, f.pkgName);
    HoldsStays(a, b, r.lang, f.lang);
    HoldsStays(a, b, r.parseErr, f.parseErr);
    IndexStays(plan.syms, i, sa, sb, r.symOff, r.symN, SymbolPlace(f));
    IndexStays(plan.refs, i, ra, rb, r.refOff, r.refN, RefPlace(f));
  }

  lemma {:induction false} EntryStays<T(!new)>(a: Str, b: Str, r: DictRec, la: seq<T>, lb: seq<T>, marks: seq<map<Str, T>>)
    requires a <= b && la <= lb && EntryLists(a, r, la, marks)
    ensures EntryLists(b, r, lb, marks)
  {
    hide Listing;
    HoldsStays(a, b, r.key, View(a, r.key));
    assert lb[r.off..r.off + r.n] == la[r.off..r.off + r.n];
  }

  lemma {:induction false} LowerStays(a: Tables, b: Tables)
    requires a.strs <= b.strs && a.names == b.names && PairsOk(a.strs, a.names)
    ensures PairsOk(b.strs, b.names) && LowerNames(a) == LowerNames(b)
  {
    forall i | 0 <= i < |a.names| ensures PairOk(b.strs, a.names[i]) && View(a.strs, a.names[i].second) == View(b.strs, a.names[i].second) {
      assert PairOk(a.strs, a.names[i]);
      HoldsStays(a.strs, b.strs, a.names[i].second, View(a.strs, a.names[i].second));
    }
  }

  lemma {:induction false} PairHolds(strs: Str, r: PairRec, a: Str, b: Str)
    requires Holds(strs, r.first, a) && Holds(strs, r.second, b)
    ensures IsPair(strs, r, a, b)
  {
  }

  lemma {:induction false} PairsAreOk(strs: Str, recs: seq<PairRec>, pairs: seq<(Str, Str)>)
    requires |recs| == |pairs| && forall k :: 0 <= k < |pairs| ==> IsPair(strs, recs[k], pairs[k].0, pairs[k].1)
    ensures PairsOk(strs, recs)
  {
  }

  lemma {:induction false} PairsStayOk(a: Str, b: Str, recs: seq<PairRec>)
    requires PairsOk(a, recs) && a <= b
    ensures PairsOk(b, recs)
  {
    forall i | 0 <= i < |recs| ensures PairOk(b, recs[i]) { assert PairOk(a, recs[i]); }
  }
}
