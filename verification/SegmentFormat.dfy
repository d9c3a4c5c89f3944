/**
 The format as documented, number by number: where in the bytes of an image each value is found.
 */
module SegmentFormat {
  import opened SegmentBytes
  import opened SegmentRecords
  import opened SegmentImage
  import T = SegmentTables

  /** The w bytes at a place hold n. */
  predicate Holds(data: seq<byte>, at: nat, w: nat, n: nat)
  {
    at + w <= |data| && U(data, at, w) == n
  }

  /** The eight bytes at a place hold a reference to a string. */
  predicate HoldsRef(data: seq<byte>, at: nat, r: StrRef)
  {
    Holds(data, at, 4, r.off) && Holds(data, at + 4, 4, r.n)
  }

  // ---------------------------------------------------------------------------------------------
  // The container

  lemma {:induction false} HeaderBytes(c: Container, hash: Hash)
    requires Fits(c, hash)
    ensures var data := Image(c, hash); var table := |data| - 640;
      && table >= 64 && data[..8] == [67, 72, 88, 83, 69, 71, 0, 1]
      && Holds(data, 8, 2, 5) && Holds(data, 10, 2, c.kind) && Holds(data, 12, 4, 20) && Holds(data, 16, 8, c.generation)
      && Holds(data, 24, 8, table) && Holds(data, 32, 8, hash(data[table..])) && Holds(data, 40, 8, hash(data[..40]))
  {
    hide U, Image;
    HeaderReads(c, hash);
  }

  /** An entry of the table: the section's number, its place in the image, its length and its checksum. */
  lemma {:induction false} TableBytes(c: Container, hash: Hash, i: nat)
    requires Fits(c, hash) && i < 20
    ensures var data := Image(c, hash); var at, section := |data| - 640 + 32 * i, c.sections[i];
      && at >= 64 && Holds(data, at, 4, i + 1) && Holds(data, at + 16, 8, |section|) && Holds(data, at + 24, 8, hash(section))
      && exists off: nat :: Holds(data, at + 8, 8, off) && off % 8 == 0 && off + |section| <= |data| && data[off..off + |section|] == section
  {
    hide U, Image, Offset, Pow256, Entry;
    var data, at := Image(c, hash), |Image(c, hash)| - 640 + 32 * i;
    FittingIsSized(c, hash, i);
    EntryLands(c, hash, i);
    SectionLands(c, hash, i);
    EntryReads(c.sections, i, hash);
    SliceReads(data, at, 32, 0, 4);
    SliceReads(data, at, 32, 8, 8);
    SliceReads(data, at, 32, 16, 8);
    SliceReads(data, at, 32, 24, 8);
    assert Holds(data, at + 8, 8, Offset(c.sections, i));
  }

  // ---------------------------------------------------------------------------------------------
  // Records

  /** A field of a record of a section. */
  lemma {:induction false} FieldBytes<X(!new)>(layout: Layout, recs: seq<X>, fields: X -> seq<nat>, size: nat, i: nat, k: nat, off: nat)
    requires (forall x :: |fields(x)| == |layout|) && Fit(layout, recs, fields) && i < |recs| && k < |layout|
    requires Size(layout) == size > 0 && At(layout, k) == off
    ensures Holds(Written(layout, recs, fields), size * i + off, layout[k], fields(recs[i])[k])
  {
    hide Section, Packed, Flat, Pow256, Size, At;
    var rows, s := Rowed(layout, recs, fields), Written(layout, recs, fields);
    RowOfSection(layout, rows, i);
    RowBounds(i, size);
    FieldInside(layout, k);
    assert i * size == size * i;
    SliceReads(s, i * size, size, off, layout[k]);
    assert Unpacked(layout, s[i * size..(i + 1) * size])[k] == rows[i][k];
  }

  /** Every field of a record of a section. */
  lemma {:induction false} RowBytes<X(!new)>(layout: Layout, recs: seq<X>, fields: X -> seq<nat>, size: nat, i: nat)
    requires (forall x :: |fields(x)| == |layout|) && Fit(layout, recs, fields) && i < |recs| && Size(layout) == size > 0
    ensures forall k {:trigger At(layout, k)} :: 0 <= k < |layout| ==>
      Holds(Written(layout, recs, fields), size * i + At(layout, k), layout[k], fields(recs[i])[k])
  {
    hide Written, Holds, Size, Fit, At;
    forall k | 0 <= k < |layout| ensures Holds(Written(layout, recs, fields), size * i + At(layout, k), layout[k], fields(recs[i])[k]) {
      FieldBytes(layout, recs, fields, size, i, k, At(layout, k));
    }
  }

  lemma {:induction false} WrittenSize<X(!new)>(layout: Layout, recs: seq<X>, fields: X -> seq<nat>, size: nat)
    requires (forall x :: |fields(x)| == |layout|) && Size(layout) == size
    ensures |Written(layout, recs, fields)| == size * |recs|
  {
    SectionSize(layout, Rowed(layout, recs, fields));
  }

  /** A file in 112 bytes. */
  predicate FileAt(s: seq<byte>, at: nat, r: FileRec)
  {
    && HoldsRef(s, at, r.path) && HoldsRef(s, at + 8, r.package) && HoldsRef(s, at + 16, r.pkgName)
    && HoldsRef(s, at + 24, r.lang) && HoldsRef(s, at + 32, r.parseErr) && Holds(s, at + 40, 8, r.hash)
    && Holds(s, at + 48, 8, r.size) && Holds(s, at + 56, 8, r.mtime) && Holds(s, at + 64, 4, r.symOff)
    && Holds(s, at + 68, 4, r.symN) && Holds(s, at + 72, 4, r.impOff) && Holds(s, at + 76, 4, r.impN)
    && Holds(s, at + 80, 4, r.refOff) && Holds(s, at + 84, 4, r.refN) && Holds(s, at + 88, 4, r.flags)
    && Holds(s, at + 96, 4, r.expOff) && Holds(s, at + 100, 4, r.expN) && Holds(s, at + 104, 4, r.hintOff)
    && Holds(s, at + 108, 4, r.hintN)
  }

  ghost predicate FileSection(s: seq<byte>, recs: seq<FileRec>)
  {
    |s| == 112 * |recs| && forall i: nat :: i < |recs| ==> FileAt(s, 112 * i, recs[i])
  }

  lemma {:induction false} FileBytes(recs: seq<FileRec>)
    requires Fit(FILE_LAYOUT, recs, FileFields)
    ensures FileSection(Written(FILE_LAYOUT, recs, FileFields), recs)
  {
    hide Written, Holds, Size, Fit, At;
    FileLayout();
    assert At(FILE_LAYOUT, 0) == 0 && At(FILE_LAYOUT, 1) == 4 && At(FILE_LAYOUT, 2) == 8 && At(FILE_LAYOUT, 3) == 12
      && At(FILE_LAYOUT, 4) == 16 && At(FILE_LAYOUT, 5) == 20 && At(FILE_LAYOUT, 6) == 24 && At(FILE_LAYOUT, 7) == 28
      && At(FILE_LAYOUT, 8) == 32 && At(FILE_LAYOUT, 9) == 36 && At(FILE_LAYOUT, 10) == 40 && At(FILE_LAYOUT, 11) == 48
      && At(FILE_LAYOUT, 12) == 56 && At(FILE_LAYOUT, 13) == 64 && At(FILE_LAYOUT, 14) == 68 && At(FILE_LAYOUT, 15) == 72
      && At(FILE_LAYOUT, 16) == 76 && At(FILE_LAYOUT, 17) == 80 && At(FILE_LAYOUT, 18) == 84 && At(FILE_LAYOUT, 19) == 88
      && At(FILE_LAYOUT, 21) == 96 && At(FILE_LAYOUT, 22) == 100 && At(FILE_LAYOUT, 23) == 104 && At(FILE_LAYOUT, 24) == 108;
    WrittenSize(FILE_LAYOUT, recs, FileFields, 112);
    forall i: nat | i < |recs| ensures FileAt(Written(FILE_LAYOUT, recs, FileFields), 112 * i, recs[i]) {
      RowBytes(FILE_LAYOUT, recs, FileFields, 112, i);
    }
  }

  /** A symbol in 72 bytes. */
  predicate SymbolAt(s: seq<byte>, at: nat, r: SymRec)
  {
    && HoldsRef(s, at, r.name) && HoldsRef(s, at + 8, r.receiver) && HoldsRef(s, at + 16, r.signature)
    && HoldsRef(s, at + 24, r.doc) && HoldsRef(s, at + 64, r.paramList) && Holds(s, at + 32, 4, r.file)
    && Holds(s, at + 36, 4, r.line) && Holds(s, at + 40, 4, r.endLine) && Holds(s, at + 44, 1, r.kind)
    && Holds(s, at + 45, 1, r.flags) && Holds(s, at + 46, 1, r.visibility) && Holds(s, at + 48, 4, r.container)
    && Holds(s, at + 52, 4, r.modifiers) && Holds(s, at + 56, 1, r.minArgs) && Holds(s, at + 57, 1, r.maxArgs)
  }

  ghost predicate SymbolSection(s: seq<byte>, recs: seq<SymRec>)
  {
    |s| == 72 * |recs| && forall i: nat :: i < |recs| ==> SymbolAt(s, 72 * i, recs[i])
  }

  lemma {:induction false} SymbolBytes(recs: seq<SymRec>)
    requires Fit(SYMBOL_LAYOUT, recs, SymbolFields)
    ensures SymbolSection(Written(SYMBOL_LAYOUT, recs, SymbolFields), recs)
  {
    hide Written, Holds, Size, Fit, At;
    SymbolLayout();
    assert At(SYMBOL_LAYOUT, 0) == 0 && At(SYMBOL_LAYOUT, 1) == 4 && At(SYMBOL_LAYOUT, 2) == 8 && At(SYMBOL_LAYOUT, 3) == 12
      && At(SYMBOL_LAYOUT, 4) == 16 && At(SYMBOL_LAYOUT, 5) == 20 && At(SYMBOL_LAYOUT, 6) == 24 && At(SYMBOL_LAYOUT, 7) == 28
      && At(SYMBOL_LAYOUT, 8) == 32 && At(SYMBOL_LAYOUT, 9) == 36 && At(SYMBOL_LAYOUT, 10) == 40 && At(SYMBOL_LAYOUT, 11) == 44
      && At(SYMBOL_LAYOUT, 12) == 45 && At(SYMBOL_LAYOUT, 13) == 46 && At(SYMBOL_LAYOUT, 15) == 48 && At(SYMBOL_LAYOUT, 16) == 52
      && At(SYMBOL_LAYOUT, 17) == 56 && At(SYMBOL_LAYOUT, 18) == 57 && At(SYMBOL_LAYOUT, 20) == 64 && At(SYMBOL_LAYOUT, 21) == 68;
    WrittenSize(SYMBOL_LAYOUT, recs, SymbolFields, 72);
    forall i: nat | i < |recs| ensures SymbolAt(Written(SYMBOL_LAYOUT, recs, SymbolFields), 72 * i, recs[i]) {
      RowBytes(SYMBOL_LAYOUT, recs, SymbolFields, 72, i);
    }
  }

  /** An import in 40 bytes. */
  predicate ImportAt(s: seq<byte>, at: nat, r: ImportRec)
  {
    && HoldsRef(s, at, r.path) && HoldsRef(s, at + 8, r.name) && Holds(s, at + 16, 4, r.file) && Holds(s, at + 20, 4, r.line)
    && Holds(s, at + 24, 1, r.kind) && Holds(s, at + 28, 4, r.namesOff) && Holds(s, at + 32, 4, r.namesN)
  }

  ghost predicate ImportSection(s: seq<byte>, recs: seq<ImportRec>)
  {
    |s| == 40 * |recs| && forall i: nat :: i < |recs| ==> ImportAt(s, 40 * i, recs[i])
  }

  lemma {:induction false} ImportBytes(recs: seq<ImportRec>)
    requires Fit(IMPORT_LAYOUT, recs, ImportFields)
    ensures ImportSection(Written(IMPORT_LAYOUT, recs, ImportFields), recs)
  {
    hide Written, Holds, Size, Fit, At;
    ImportLayout();
    assert At(IMPORT_LAYOUT, 0) == 0 && At(IMPORT_LAYOUT, 1) == 4 && At(IMPORT_LAYOUT, 2) == 8 && At(IMPORT_LAYOUT, 3) == 12
      && At(IMPORT_LAYOUT, 4) == 16 && At(IMPORT_LAYOUT, 5) == 20 && At(IMPORT_LAYOUT, 6) == 24 && At(IMPORT_LAYOUT, 8) == 28
      && At(IMPORT_LAYOUT, 9) == 32;
    WrittenSize(IMPORT_LAYOUT, recs, ImportFields, 40);
    forall i: nat | i < |recs| ensures ImportAt(Written(IMPORT_LAYOUT, recs, ImportFields), 40 * i, recs[i]) {
      RowBytes(IMPORT_LAYOUT, recs, ImportFields, 40, i);
    }
  }

  /** A reference in 48 bytes. */
  predicate RefAt(s: seq<byte>, at: nat, r: RefRec)
  {
    && HoldsRef(s, at, r.name) && HoldsRef(s, at + 8, r.qualifier) && HoldsRef(s, at + 36, r.argTypes)
    && Holds(s, at + 16, 4, r.file) && Holds(s, at + 20, 4, r.enclosing) && Holds(s, at + 24, 4, r.line)
    && Holds(s, at + 28, 2, r.col) && Holds(s, at + 30, 1, r.qualKind) && Holds(s, at + 31, 1, r.kind)
    && Holds(s, at + 32, 1, r.args) && Holds(s, at + 44, 4, r.lambda)
  }

  ghost predicate RefSection(s: seq<byte>, recs: seq<RefRec>)
  {
    |s| == 48 * |recs| && forall i: nat :: i < |recs| ==> RefAt(s, 48 * i, recs[i])
  }

  lemma {:induction false} RefBytes(recs: seq<RefRec>)
    requires Fit(REF_LAYOUT, recs, RefFields)
    ensures RefSection(Written(REF_LAYOUT, recs, RefFields), recs)
  {
    hide Written, Holds, Size, Fit, At;
    RefLayout();
    assert At(REF_LAYOUT, 0) == 0 && At(REF_LAYOUT, 1) == 4 && At(REF_LAYOUT, 2) == 8 && At(REF_LAYOUT, 3) == 12
      && At(REF_LAYOUT, 4) == 16 && At(REF_LAYOUT, 5) == 20 && At(REF_LAYOUT, 6) == 24 && At(REF_LAYOUT, 7) == 28
      && At(REF_LAYOUT, 8) == 30 && At(REF_LAYOUT, 9) == 31 && At(REF_LAYOUT, 10) == 32 && At(REF_LAYOUT, 12) == 36
      && At(REF_LAYOUT, 13) == 40 && At(REF_LAYOUT, 14) == 44;
    WrittenSize(REF_LAYOUT, recs, RefFields, 48);
    forall i: nat | i < |recs| ensures RefAt(Written(REF_LAYOUT, recs, RefFields), 48 * i, recs[i]) {
      RowBytes(REF_LAYOUT, recs, RefFields, 48, i);
    }
  }

  /** An export in 32 bytes. */
  predicate ExportAt(s: seq<byte>, at: nat, r: ExportRec)
  {
    && HoldsRef(s, at, r.name) && HoldsRef(s, at + 8, r.source) && HoldsRef(s, at + 16, r.sourceName)
    && Holds(s, at + 24, 4, r.file) && Holds(s, at + 28, 4, r.line)
  }

  ghost predicate ExportSection(s: seq<byte>, recs: seq<ExportRec>)
  {
    |s| == 32 * |recs| && forall i: nat :: i < |recs| ==> ExportAt(s, 32 * i, recs[i])
  }

  lemma {:induction false} ExportBytes(recs: seq<ExportRec>)
    requires Fit(EXPORT_LAYOUT, recs, ExportFields)
    ensures ExportSection(Written(EXPORT_LAYOUT, recs, ExportFields), recs)
  {
    hide Written, Holds, Size, Fit, At;
    EightLayout(EXPORT_LAYOUT);
    assert At(EXPORT_LAYOUT, 0) == 0 && At(EXPORT_LAYOUT, 1) == 4 && At(EXPORT_LAYOUT, 2) == 8 && At(EXPORT_LAYOUT, 3) == 12
      && At(EXPORT_LAYOUT, 4) == 16 && At(EXPORT_LAYOUT, 5) == 20 && At(EXPORT_LAYOUT, 6) == 24 && At(EXPORT_LAYOUT, 7) == 28;
    WrittenSize(EXPORT_LAYOUT, recs, ExportFields, 32);
    forall i: nat | i < |recs| ensures ExportAt(Written(EXPORT_LAYOUT, recs, ExportFields), 32 * i, recs[i]) {
      RowBytes(EXPORT_LAYOUT, recs, ExportFields, 32, i);
    }
  }

  /** A binding hint in 32 bytes. */
  predicate HintAt(s: seq<byte>, at: nat, r: HintRec)
  {
    && HoldsRef(s, at, r.name) && HoldsRef(s, at + 8, r.kind) && Holds(s, at + 16, 4, r.file) && Holds(s, at + 20, 4, r.scope)
    && Holds(s, at + 24, 4, r.line)
  }

  ghost predicate HintSection(s: seq<byte>, recs: seq<HintRec>)
  {
    |s| == 32 * |recs| && forall i: nat :: i < |recs| ==> HintAt(s, 32 * i, recs[i])
  }

  lemma {:induction false} HintBytes(recs: seq<HintRec>)
    requires Fit(HINT_LAYOUT, recs, HintFields)
    ensures HintSection(Written(HINT_LAYOUT, recs, HintFields), recs)
  {
    hide Written, Holds, Size, Fit, At;
    EightLayout(HINT_LAYOUT);
    assert At(HINT_LAYOUT, 0) == 0 && At(HINT_LAYOUT, 1) == 4 && At(HINT_LAYOUT, 2) == 8 && At(HINT_LAYOUT, 3) == 12
      && At(HINT_LAYOUT, 4) == 16 && At(HINT_LAYOUT, 5) == 20 && At(HINT_LAYOUT, 6) == 24;
    WrittenSize(HINT_LAYOUT, recs, HintFields, 32);
    forall i: nat | i < |recs| ensures HintAt(Written(HINT_LAYOUT, recs, HintFields), 32 * i, recs[i]) {
      RowBytes(HINT_LAYOUT, recs, HintFields, 32, i);
    }
  }

  /** Two strings in 16 bytes. */
  predicate PairAt(s: seq<byte>, at: nat, r: PairRec)
  {
    && HoldsRef(s, at, r.first) && HoldsRef(s, at + 8, r.second)
  }

  ghost predicate PairSection(s: seq<byte>, recs: seq<PairRec>)
  {
    |s| == 16 * |recs| && forall i: nat :: i < |recs| ==> PairAt(s, 16 * i, recs[i])
  }

  lemma {:induction false} PairBytes(recs: seq<PairRec>)
    requires Fit(PAIR_LAYOUT, recs, PairFields)
    ensures PairSection(Written(PAIR_LAYOUT, recs, PairFields), recs)
  {
    hide Written, Holds, Size, Fit, At;
    FourLayout(PAIR_LAYOUT);
    assert At(PAIR_LAYOUT, 0) == 0 && At(PAIR_LAYOUT, 1) == 4 && At(PAIR_LAYOUT, 2) == 8 && At(PAIR_LAYOUT, 3) == 12;
    WrittenSize(PAIR_LAYOUT, recs, PairFields, 16);
    forall i: nat | i < |recs| ensures PairAt(Written(PAIR_LAYOUT, recs, PairFields), 16 * i, recs[i]) {
      RowBytes(PAIR_LAYOUT, recs, PairFields, 16, i);
    }
  }

  /** A dictionary entry in 16 bytes. */
  predicate DictAt(s: seq<byte>, at: nat, r: DictRec)
  {
    && HoldsRef(s, at, r.key) && Holds(s, at + 8, 4, r.off) && Holds(s, at + 12, 4, r.n)
  }

  ghost predicate DictSection(s: seq<byte>, recs: seq<DictRec>)
  {
    |s| == 16 * |recs| && forall i: nat :: i < |recs| ==> DictAt(s, 16 * i, recs[i])
  }

  lemma {:induction false} DictBytes(recs: seq<DictRec>)
    requires Fit(DICT_LAYOUT, recs, DictFields)
    ensures DictSection(Written(DICT_LAYOUT, recs, DictFields), recs)
  {
    hide Written, Holds, Size, Fit, At;
    FourLayout(DICT_LAYOUT);
    assert At(DICT_LAYOUT, 0) == 0 && At(DICT_LAYOUT, 1) == 4 && At(DICT_LAYOUT, 2) == 8 && At(DICT_LAYOUT, 3) == 12;
    WrittenSize(DICT_LAYOUT, recs, DictFields, 16);
    forall i: nat | i < |recs| ensures DictAt(Written(DICT_LAYOUT, recs, DictFields), 16 * i, recs[i]) {
      RowBytes(DICT_LAYOUT, recs, DictFields, 16, i);
    }
  }

  /** A search posting in 8 bytes. */
  predicate PostAt(s: seq<byte>, at: nat, r: PostRec)
  {
    && Holds(s, at, 4, r.sym) && Holds(s, at + 4, 4, r.weight)
  }

  ghost predicate PostSection(s: seq<byte>, recs: seq<PostRec>)
  {
    |s| == 8 * |recs| && forall i: nat :: i < |recs| ==> PostAt(s, 8 * i, recs[i])
  }

  lemma {:induction false} PostBytes(recs: seq<PostRec>)
    requires Fit(POST_LAYOUT, recs, PostFields)
    ensures PostSection(Written(POST_LAYOUT, recs, PostFields), recs)
  {
    hide Written, Holds, Size, Fit, At;
    SmallLayouts();
    assert At(POST_LAYOUT, 0) == 0 && At(POST_LAYOUT, 1) == 4;
    WrittenSize(POST_LAYOUT, recs, PostFields, 8);
    forall i: nat | i < |recs| ensures PostAt(Written(POST_LAYOUT, recs, PostFields), 8 * i, recs[i]) {
      RowBytes(POST_LAYOUT, recs, PostFields, 8, i);
    }
  }

  /** A list of record numbers, four bytes each. */
  lemma {:induction false} ListBytes(list: seq<nat>, i: nat)
    requires Fit(INDEX_LAYOUT, list, IndexFields) && i < |list|
    ensures Holds(Written(INDEX_LAYOUT, list, IndexFields), 4 * i, 4, list[i])
  {
    hide Written, Holds, Size, Fit, At;
    SmallLayouts();
    FieldBytes(INDEX_LAYOUT, list, IndexFields, 4, i, 0, 0);
  }

  /** A list of record numbers fills a section. */
  ghost predicate Lists(s: seq<byte>, list: seq<nat>)
  {
    |s| == 4 * |list| && forall i: nat :: i < |list| ==> Holds(s, 4 * i, 4, list[i])
  }

  lemma {:induction false} WholeList(list: seq<nat>)
    requires Fit(INDEX_LAYOUT, list, IndexFields)
    ensures Lists(Written(INDEX_LAYOUT, list, IndexFields), list)
  {
    hide Holds, Fit, At;
    SmallLayouts();
    forall i: nat | i < |list| ensures Holds(Written(INDEX_LAYOUT, list, IndexFields), 4 * i, 4, list[i]) { ListBytes(list, i); }
  }

  /** Every section of the tables, in order. */
  ghost predicate SectionBytes(s: seq<seq<byte>>, t: T.Tables)
  {
    |s| == 20 && FactBytes(s, t) && SearchBytes(s, t)
  }

  ghost predicate FactBytes(s: seq<seq<byte>>, t: T.Tables)
    requires |s| == 20
  {
    && Text(s[0]) == t.strs && FileSection(s[1], t.files) && SymbolSection(s[2], t.syms) && Lists(s[3], t.symByFile)
    && ImportSection(s[4], t.imps) && Lists(s[5], t.impByPath) && RefSection(s[6], t.refs) && Lists(s[7], t.refsByEnclosing)
    && Lists(s[8], t.refsByFile) && PairSection(s[17], t.impNames) && ExportSection(s[18], t.exps) && HintSection(s[19], t.hints)
  }

  ghost predicate SearchBytes(s: seq<seq<byte>>, t: T.Tables)
    requires |s| == 20
  {
    && |s[9]| == 16 && Holds(s[9], 0, 8, t.docs) && Holds(s[9], 8, 8, t.total) && Lists(s[10], t.docLen)
    && DictSection(s[11], t.terms) && PostSection(s[12], t.posts) && PairSection(s[13], t.names) && DictSection(s[14], t.tris)
    && Lists(s[15], t.triPost) && Lists(s[16], t.pkgFiles)
  }

  lemma {:induction false} SectionsAreDocumented(t: T.Tables)
    requires TablesFit(t)
    ensures SectionBytes(SectionsOf(t), t)
  {
    FactsWritten(t);
    SearchWritten(t);
  }

  lemma {:induction false} FactsWritten(t: T.Tables)
    requires TablesFit(t)
    ensures FactBytes(SectionsOf(t), t)
  {
    hide Written, FileSection, SymbolSection, ImportSection, RefSection, PairSection, ExportSection, HintSection, Lists, Fit, Size, Bytes, Text;
    TextOfBytes(t.strs);
    FileBytes(t.files);
    SymbolBytes(t.syms);
    WholeList(t.symByFile);
    ImportBytes(t.imps);
    WholeList(t.impByPath);
    RefBytes(t.refs);
    WholeList(t.refsByEnclosing);
    WholeList(t.refsByFile);
    PairBytes(t.impNames);
    ExportBytes(t.exps);
    HintBytes(t.hints);
  }

  lemma {:induction false} SearchWritten(t: T.Tables)
    requires TablesFit(t)
    ensures SearchBytes(SectionsOf(t), t)
  {
    hide Written, PairSection, DictSection, PostSection, Lists, Fit, Size, Bytes, Holds, Packed;
    Stats(t.docs, t.total);
    WholeList(t.docLen);
    DictBytes(t.terms);
    PostBytes(t.posts);
    PairBytes(t.names);
    DictBytes(t.tris);
    WholeList(t.triPost);
    WholeList(t.pkgFiles);
  }

  lemma {:induction false} Stats(docs: nat, total: nat)
    requires FitsLayout(STATS_LAYOUT, [docs, total])
    ensures var s := Packed(STATS_LAYOUT, [docs, total]); |s| == 16 && Holds(s, 0, 8, docs) && Holds(s, 8, 8, total)
  {
    hide Packed, Flat;
    SmallLayouts();
    UnpackedOfPacked(STATS_LAYOUT, [docs, total]);
    var s := Packed(STATS_LAYOUT, [docs, total]);
    assert At(STATS_LAYOUT, 1) == 8;
    assert Unpacked(STATS_LAYOUT, s)[0] == docs && Unpacked(STATS_LAYOUT, s)[1] == total;
  }
}
