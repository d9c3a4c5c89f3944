/** From facts to bytes and back: encoding files into an image that parses to the same tables and decodes to the same facts. */
module SegmentWhole {
  import opened Common
  import opened Order
  import opened SegmentBytes
  import opened SegmentRecords
  import opened SegmentTables
  import opened SegmentSearch
  import R = SegmentRoundTrip
  import I = SegmentImage
  import E = SegmentEncode
  import X = SegmentTexts

  // ---------------------------------------------------------------------------------------------
  // Written tables fit their bytes

  const U32_END: nat := 0x1_0000_0000
  const U64_END: nat := 0x1_0000_0000_0000_0000

  /** The facts' own field widths: 64-bit hashes, sizes and times, 32-bit modifier sets, and single bytes. */
  ghost predicate Narrow(f: File)
  {
    && f.hash < U64_END && R.Sizes(f)
    && (forall k: nat :: k < |f.symbols| ==> f.symbols[k].modifiers < U32_END)
    && (forall k: nat :: k < |f.refs| ==> f.refs[k].qualKind < 256 && f.refs[k].args < 256)
  }

  /** Weights and lengths are 32-bit patterns, the sum of the lengths is a 64-bit one. */
  ghost predicate NarrowLanguage(lang: Language)
  {
    && (forall f, s, term :: term in lang.weights(f, s) ==> lang.weights(f, s)[term] < U32_END)
    && (forall m :: lang.length(m) < U32_END) && (forall s :: lang.total(s) < U64_END)
  }

  /** Every table's length is a 32-bit number, and the string table is below its limit. */
  predicate Small(t: Tables)
  {
    && |t.strs| < 0x8000_0000
    && |t.files| < U32_END && |t.symByFile| < U32_END && |t.imps| < U32_END && |t.refsByFile| < U32_END && |t.posts| < U32_END
    && |t.names| < U32_END && |t.triPost| < U32_END && |t.impNames| < U32_END && |t.exps| < U32_END && |t.hints| < U32_END
  }

  predicate Ref32(r: StrRef)
  {
    r.off < U32_END && r.n < U32_END
  }

  lemma {:induction false} FileFits(r: FileRec)
    requires Ref32(r.path) && Ref32(r.package) && Ref32(r.pkgName) && Ref32(r.lang) && Ref32(r.parseErr)
    requires r.hash < U64_END && r.size < U64_END && r.mtime < U64_END
    requires r.symOff < U32_END && r.symN < U32_END && r.impOff < U32_END && r.impN < U32_END && r.refOff < U32_END && r.refN < U32_END
    requires r.flags < U32_END && r.expOff < U32_END && r.expN < U32_END && r.hintOff < U32_END && r.hintN < U32_END
    ensures FitsLayout(FILE_LAYOUT, FileFields(r))
  {
    Powers();
  }

  lemma {:induction false} SymbolFits(r: SymRec)
    requires Ref32(r.name) && Ref32(r.receiver) && Ref32(r.signature) && Ref32(r.doc) && Ref32(r.paramList)
    requires r.file < U32_END && r.line < U32_END && r.endLine < U32_END && r.container < U32_END && r.modifiers < U32_END
    requires r.kind < 256 && r.flags < 256 && r.visibility < 256 && r.minArgs < 256 && r.maxArgs < 256
    ensures FitsLayout(SYMBOL_LAYOUT, SymbolFields(r))
  {
    Powers();
    assert Pow256(6) > 0;
  }

  lemma {:induction false} ImportFits(r: ImportRec)
    requires Ref32(r.path) && Ref32(r.name) && r.file < U32_END && r.line < U32_END && r.kind < 256
    requires r.namesOff < U32_END && r.namesN < U32_END
    ensures FitsLayout(IMPORT_LAYOUT, ImportFields(r))
  {
    Powers();
    assert Pow256(3) > 0;
  }

  lemma {:induction false} RefFits(r: RefRec)
    requires Ref32(r.name) && Ref32(r.qualifier) && Ref32(r.argTypes)
    requires r.file < U32_END && r.enclosing < U32_END && r.line < U32_END && r.col < 0x1_0000 && r.lambda < U32_END
    requires r.qualKind < 256 && r.kind < 256 && r.args < 256
    ensures FitsLayout(REF_LAYOUT, RefFields(r))
  {
    Powers();
    assert Pow256(3) > 0;
  }

  lemma {:induction false} ExportFits(r: ExportRec)
    requires Ref32(r.name) && Ref32(r.source) && Ref32(r.sourceName) && r.file < U32_END && r.line < U32_END
    ensures FitsLayout(EXPORT_LAYOUT, ExportFields(r))
  {
    Powers();
  }

  lemma {:induction false} HintFits(r: HintRec)
    requires Ref32(r.name) && Ref32(r.kind) && r.file < U32_END && r.scope < U32_END && r.line < U32_END
    ensures FitsLayout(HINT_LAYOUT, HintFields(r))
  {
    Powers();
  }

  lemma {:induction false} IndexFits(s: seq<nat>, limit: nat)
    requires AllBelow(s, limit) && limit <= U32_END
    ensures I.Fit(INDEX_LAYOUT, s, I.IndexFields)
  {
    Powers();
    forall i | 0 <= i < |s| ensures FitsLayout(INDEX_LAYOUT, I.IndexFields(s[i])) {}
  }

  lemma {:induction false} PairsFit(strs: Str, s: seq<PairRec>)
    requires PairsOk(strs, s) && |strs| < U32_END
    ensures I.Fit(PAIR_LAYOUT, s, PairFields)
  {
    Powers();
    forall i | 0 <= i < |s| ensures FitsLayout(PAIR_LAYOUT, PairFields(s[i])) { assert PairOk(strs, s[i]); }
  }

  lemma {:induction false} DictFits(strs: Str, s: seq<DictRec>, limit: nat)
    requires DictOk(strs, s, limit) && |strs| < U32_END && limit < U32_END
    ensures I.Fit(DICT_LAYOUT, s, DictFields)
  {
    hide View;
    Powers();
    forall i | 0 <= i < |s| ensures FitsLayout(DICT_LAYOUT, DictFields(s[i])) { assert EntryOk(strs, s[i], limit); }
  }

  lemma {:induction false} PostsFit(s: seq<PostRec>)
    requires forall i :: 0 <= i < |s| ==> s[i].sym < U32_END && s[i].weight < U32_END
    ensures I.Fit(POST_LAYOUT, s, PostFields)
  {
    Powers();
    forall i | 0 <= i < |s| ensures FitsLayout(POST_LAYOUT, PostFields(s[i])) {}
  }

  lemma {:induction false} StatsFit(docs: nat, total: nat)
    requires docs < U64_END && total < U64_END
    ensures FitsLayout(STATS_LAYOUT, [docs, total])
  {
    Powers();
  }

  lemma {:induction false} WrittenFileFits(files: seq<File>, plan: Plan, t: Tables, i: nat)
    requires Written(files, plan, t) && Small(t) && i < |files| && Narrow(files[i])
    ensures FitsLayout(FILE_LAYOUT, FileFields(t.files[i]))
  {
    hide IsIndex, IsGroup, View, Less, FitsLayout, Listed;
    assert FileWritten(files, plan, t, i);
    WrittenFileIsOk(files, plan, t, i);
    assert t.files[i].flags < U32_END;
    FileFits(t.files[i]);
  }

  lemma {:induction false} WrittenSymbolFits(files: seq<File>, plan: Plan, t: Tables, g: nat)
    requires Written(files, plan, t) && Small(t) && g < |t.syms| && forall i: nat :: i < |files| ==> Narrow(files[i])
    ensures FitsLayout(SYMBOL_LAYOUT, SymbolFields(t.syms[g]))
  {
    hide View, Less, FitsLayout;
    assert SymbolWritten(files, plan, t, g);
    assert plan.syms[g] in plan.syms;
    assert Narrow(files[plan.syms[g].file]);
    SymbolFits(t.syms[g]);
  }

  lemma {:induction false} WrittenImportFits(files: seq<File>, plan: Plan, t: Tables, i: nat)
    requires Written(files, plan, t) && Small(t) && i < |t.imps|
    ensures FitsLayout(IMPORT_LAYOUT, ImportFields(t.imps[i]))
  {
    hide View, Less, FitsLayout, IsPair;
    assert ImportWritten(files, plan, t, i);
    assert plan.imps[i] in plan.imps;
    ImportFits(t.imps[i]);
  }

  lemma {:induction false} WrittenRefFits(files: seq<File>, plan: Plan, t: Tables, g: nat)
    requires Written(files, plan, t) && Small(t) && g < |t.refs| && forall i: nat :: i < |files| ==> Narrow(files[i])
    ensures FitsLayout(REF_LAYOUT, RefFields(t.refs[g]))
  {
    hide View, Less, FitsLayout;
    assert RefWritten(files, plan, t, g);
    assert plan.refs[g] in plan.refs;
    assert Narrow(files[plan.refs[g].file]);
    RefFits(t.refs[g]);
  }

  lemma {:induction false} WrittenExportFits(files: seq<File>, plan: Plan, t: Tables, i: nat)
    requires Written(files, plan, t) && Small(t) && i < |t.exps|
    ensures FitsLayout(EXPORT_LAYOUT, ExportFields(t.exps[i]))
  {
    hide View, Less, FitsLayout;
    assert ExportWritten(files, plan, t, i);
    assert plan.exps[i] in plan.exps;
    ExportFits(t.exps[i]);
  }

  lemma {:induction false} WrittenHintFits(files: seq<File>, plan: Plan, t: Tables, i: nat)
    requires Written(files, plan, t) && Small(t) && i < |t.hints|
    ensures FitsLayout(HINT_LAYOUT, HintFields(t.hints[i]))
  {
    hide View, Less, FitsLayout;
    assert HintWritten(files, plan, t, i);
    assert plan.hints[i] in plan.hints;
    HintFits(t.hints[i]);
  }

  lemma {:induction false} LengthsAreFew(lang: Language, files: seq<File>, slots: seq<Slot>, n: nat)
    requires n <= |slots|
    ensures |Lengths(lang, files, slots, n)| <= n
  {
    if n > 0 { LengthsAreFew(lang, files, slots, n - 1); }
  }

  lemma {:induction false} RankedFits(lang: Language, files: seq<File>, slots: seq<Slot>, t: Tables)
    requires Ranked(lang, files, slots, t) && NarrowLanguage(lang) && |slots| < U32_END && Small(t)
    ensures FitsLayout(STATS_LAYOUT, [t.docs, t.total]) && I.Fit(INDEX_LAYOUT, t.docLen, I.IndexFields)
    ensures I.Fit(DICT_LAYOUT, t.terms, DictFields) && I.Fit(POST_LAYOUT, t.posts, PostFields)
  {
    hide Declares, I.Fit, DictOk, Listing, EntryLists, FitsLayout, MarksAt, Lengths;
    LengthsAreFew(lang, files, slots, |slots|);
    StatsFit(t.docs, t.total);
    forall g | 0 <= g < |slots| ensures t.docLen[g] < U32_END {}
    IndexFits(t.docLen, U32_END);
    DictFits(t.strs, t.terms, |t.posts|);
    forall k | 0 <= k < |t.posts| ensures t.posts[k].sym < U32_END && t.posts[k].weight < U32_END {
      PostFits(lang, files, slots, t.posts[k]);
    }
    PostsFit(t.posts);
  }

  lemma {:induction false} PostFits(lang: Language, files: seq<File>, slots: seq<Slot>, x: PostRec)
    requires Marked(TermMarks(lang, files, slots), x) && NarrowLanguage(lang)
    ensures x.sym < |slots| && x.weight < U32_END
  {
    var marks := TermMarks(lang, files, slots);
    var g, term :| 0 <= g < |marks| && term in marks[g] && marks[g][term] == x;
    assert marks[g] == MarksAt(lang, files, slots[g], g);
  }

  lemma {:induction false} RecordsFit(files: seq<File>, plan: Plan, t: Tables)
    requires Written(files, plan, t) && Small(t) && forall i: nat :: i < |files| ==> Narrow(files[i])
    ensures I.Fit(FILE_LAYOUT, t.files, FileFields) && I.Fit(SYMBOL_LAYOUT, t.syms, SymbolFields) && I.Fit(IMPORT_LAYOUT, t.imps, ImportFields)
    ensures I.Fit(REF_LAYOUT, t.refs, RefFields) && I.Fit(EXPORT_LAYOUT, t.exps, ExportFields) && I.Fit(HINT_LAYOUT, t.hints, HintFields)
  {
    hide FileWritten, SymbolWritten, ImportWritten, RefWritten, ExportWritten, HintWritten, FitsLayout, Narrow, Listed, SearchOk, Small, Less;
    forall i: nat | i < |t.files| ensures FitsLayout(FILE_LAYOUT, FileFields(t.files[i])) { WrittenFileFits(files, plan, t, i); }
    forall g: nat | g < |t.syms| ensures FitsLayout(SYMBOL_LAYOUT, SymbolFields(t.syms[g])) { WrittenSymbolFits(files, plan, t, g); }
    forall i: nat | i < |t.imps| ensures FitsLayout(IMPORT_LAYOUT, ImportFields(t.imps[i])) { WrittenImportFits(files, plan, t, i); }
    forall g: nat | g < |t.refs| ensures FitsLayout(REF_LAYOUT, RefFields(t.refs[g])) { WrittenRefFits(files, plan, t, g); }
    forall i: nat | i < |t.exps| ensures FitsLayout(EXPORT_LAYOUT, ExportFields(t.exps[i])) { WrittenExportFits(files, plan, t, i); }
    forall i: nat | i < |t.hints| ensures FitsLayout(HINT_LAYOUT, HintFields(t.hints[i])) { WrittenHintFits(files, plan, t, i); }
  }

  lemma {:induction false} ListsFit(files: seq<File>, plan: Plan, t: Tables)
    requires Written(files, plan, t) && Small(t)
    ensures I.Fit(INDEX_LAYOUT, t.symByFile, I.IndexFields) && I.Fit(INDEX_LAYOUT, t.impByPath, I.IndexFields)
    ensures I.Fit(INDEX_LAYOUT, t.refsByEnclosing, I.IndexFields) && I.Fit(INDEX_LAYOUT, t.refsByFile, I.IndexFields)
    ensures I.Fit(INDEX_LAYOUT, t.triPost, I.IndexFields) && I.Fit(INDEX_LAYOUT, t.pkgFiles, I.IndexFields)
    ensures I.Fit(PAIR_LAYOUT, t.names, PairFields) && I.Fit(PAIR_LAYOUT, t.impNames, PairFields) && I.Fit(DICT_LAYOUT, t.tris, DictFields)
  {
    hide FileWritten, SymbolWritten, ImportWritten, RefWritten, ExportWritten, HintWritten, Lists, AllBelow, PairsOk, DictOk, I.Fit, Less;
    IndexFits(t.symByFile, |t.syms|);
    IndexFits(t.impByPath, |t.imps|);
    IndexFits(t.refsByEnclosing, |t.refs|);
    IndexFits(t.refsByFile, |t.refs|);
    IndexFits(t.triPost, |t.names|);
    IndexFits(t.pkgFiles, |t.files|);
    PairsFit(t.strs, t.names);
    PairsFit(t.strs, t.impNames);
    DictFits(t.strs, t.tris, |t.triPost|);
  }

  /** What encoding writes fits its bytes. */
  lemma {:induction false} WrittenFits(lang: Language, files: seq<File>, plan: Plan, t: Tables)
    requires Written(files, plan, t) && Searchable(lang, files, plan.syms, t) && Small(t) && NarrowLanguage(lang)
    requires forall i: nat :: i < |files| ==> Narrow(files[i])
    ensures I.TablesFit(t)
  {
    hide Small, NarrowLanguage, Narrow, I.Fit, FitsLayout, Ranked, GramsIndexed, NamesIndexed;
    assert |plan.syms| < U32_END by { FewSymbols(files, plan, t); }
    hide Written;
    RecordsFit(files, plan, t);
    ListsFit(files, plan, t);
    RankedFits(lang, files, plan.syms, t);
  }

  lemma {:induction false} FewSymbols(files: seq<File>, plan: Plan, t: Tables)
    requires Written(files, plan, t)
    ensures |plan.syms| < U32_END
  {
  }

  // ---------------------------------------------------------------------------------------------
  // The round trip

  /** The image's parts. */
  function Parts(t: Tables, kind: nat, generation: nat): Container
  {
    Container(kind, generation, I.SectionsOf(t))
  }

  /** Every file decodes, to the facts it was made from. */
  ghost predicate Gives(t: Tables, input: seq<File>)
  {
    Valid(t) && |t.files| == |input| && forall f :: f in input ==> exists i: nat :: i < |t.files| && R.Returns(f, Decoded(t, i))
  }

  /** Encode: the files' image; every file of an image that fits decodes from its bytes to the facts it was made from. */
  method EncodeImage(lang: Language, input: seq<File>, kind: nat, generation: nat, hash: Hash)
    returns (r: E.Result<array<byte>>, ghost t: Tables)
    requires E.Indexable(input)
    ensures r.Ok? ==> fresh(r.value) && r.value[..] == Image(Parts(t, kind, generation), hash)
    ensures r.Ok? && (forall f :: f in input ==> Narrow(f)) && NarrowLanguage(lang) && Small(t)
            && Fits(Parts(t, kind, generation), hash) ==>
      && I.Parsed(r.value[..], hash) == Some(t) && Gives(t, input)
    ensures r.Ok? && (forall f :: f in input ==> Fitting(f)) ==> WellOrdered(t)
    ensures (exists i, j :: 0 <= i < j < |input| && input[i].path == input[j].path) ==> r.Err?
    ensures r.Err? && r.error != E.TooLong ==>
      (exists i, j :: 0 <= i < j < |input| && input[i].path == input[j].path) || (exists f :: f in input && !E.FileStorable(f))
    ensures (exists f :: f in input && !E.FileStorable(f)) ==> r.Err?
    ensures r.Err? && r.error == E.TooLong ==> X.TooMuch(lang, input)
  {
    hide *;
    var encoded, files, plan := E.Encode(lang, input);
    if encoded.Err? { return E.Err(encoded.error), E.NO_TABLES; }
    t := encoded.value;
    if forall f :: f in input ==> Fitting(f) {
      LinesFitThere(input, files);
      IsWellOrdered(t);
    }
    var image := Assemble(Parts(encoded.value, kind, generation), hash);
    r := E.Ok(image);
    if (forall f :: f in input ==> Narrow(f)) && NarrowLanguage(lang) && Small(t) && Fits(Parts(t, kind, generation), hash) {
      ImageRoundTrips(lang, input, files, plan, t, kind, generation, hash);
    }
  }

  /** Valid tables in every order encoding puts them in. */
  ghost predicate WellOrdered(t: Tables)
  {
    Valid(t) && InOrder(t) && AllRise(t)
  }

  lemma {:induction false} IsWellOrdered(t: Tables)
    requires Valid(t) && InOrder(t) && AllRise(t)
    ensures WellOrdered(t)
  {
  }

  lemma {:induction false} LinesFitThere(input: seq<File>, files: seq<File>)
    requires multiset(files) == multiset(input) && forall f :: f in input ==> Fitting(f)
    ensures (forall f :: f in files ==> Fitting(f)) && E.LinesFit(files)
  {
    forall f | f in files ensures Fitting(f) { assert f in multiset(files); }
    forall i: nat, k: nat | i < |files| && k < |files[i].refs| ensures 0 <= files[i].refs[k].line < TWO32 { assert Fitting(files[i]); }
  }

  /** From facts to bytes and back. */
  lemma {:induction false} ImageRoundTrips(lang: Language, input: seq<File>, files: seq<File>, plan: Plan, t: Tables, kind: nat,
                                           generation: nat, hash: Hash)
    requires multiset(files) == multiset(input) && Written(files, plan, t) && Searchable(lang, files, plan.syms, t)
    requires (forall f :: f in input ==> Narrow(f)) && NarrowLanguage(lang) && Small(t)
    requires Fits(Parts(t, kind, generation), hash)
    ensures I.Parsed(Image(Parts(t, kind, generation), hash), hash) == Some(t) && Gives(t, input)
  {
    hide Searchable, Small, NarrowLanguage, Narrow, Fits, Valid, Image, I.SectionsOf, I.Parsed, I.TablesFit, Written, R.Returns, Decoded;
    assert forall f :: f in input <==> f in multiset(input);
    assert forall f :: f in files <==> f in multiset(files);
    assert |files| == |multiset(files)| && |input| == |multiset(input)|;
    forall i: nat | i < |files| ensures Narrow(files[i]) { assert files[i] in files; }
    WrittenIsValid(files, plan, t);
    WrittenFits(lang, files, plan, t);
    I.ParsedImage(t, kind, generation, hash);
    OneRecordEach(files, plan, t);
    forall f | f in input ensures exists i: nat :: i < |t.files| && R.Returns(f, Decoded(t, i)) {
      var i :| 0 <= i < |files| && files[i] == f;
      FileReturns(files, plan, t, i);
    }
  }

  lemma {:induction false} OneRecordEach(files: seq<File>, plan: Plan, t: Tables)
    requires Written(files, plan, t)
    ensures |t.files| == |files|
  {
  }

  lemma {:induction false} FileReturns(files: seq<File>, plan: Plan, t: Tables, i: nat)
    requires Written(files, plan, t) && i < |files| && Narrow(files[i]) && Valid(t)
    ensures i < |t.files| && R.Returns(files[i], Decoded(t, i))
  {
    hide Valid, Decoded, R.Stored, R.Returns;
    OneRecordEach(files, plan, t);
    hide Written;
    R.FileRoundTrips(files, plan, t, i);
  }
}
