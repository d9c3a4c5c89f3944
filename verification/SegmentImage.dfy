/**
 The whole image: tables as bytes, and parsing the bytes back.
 */
module SegmentImage {
  import opened Common
  import opened SegmentBytes
  import opened SegmentRecords
  import T = SegmentTables
  import R = SegmentRoundTrip
  import S = SegmentSearch

  /** The records' sizes, as the format documents them. */
  lemma {:induction false} LayoutsMatch()
    ensures Size(FILE_LAYOUT) == 112 && Size(SYMBOL_LAYOUT) == 72 && Size(IMPORT_LAYOUT) == 40 && Size(REF_LAYOUT) == 48
    ensures Size(EXPORT_LAYOUT) == 32 && Size(HINT_LAYOUT) == 32 && Size(PAIR_LAYOUT) == 16 && Size(DICT_LAYOUT) == 16
    ensures Size(POST_LAYOUT) == 8 && Size(STATS_LAYOUT) == 16 && Size(INDEX_LAYOUT) == 4
  {
    FileLayout();
    SymbolLayout();
    ImportLayout();
    RefLayout();
    EightLayout(EXPORT_LAYOUT);
    EightLayout(HINT_LAYOUT);
    FourLayout(PAIR_LAYOUT);
    FourLayout(DICT_LAYOUT);
    SmallLayouts();
  }

  lemma {:induction false} FileStrings()
    ensures forall k :: 0 <= k <= 10 ==> At(FILE_LAYOUT, k) == 4 * k
  {
    Fours(FILE_LAYOUT, 10);
  }

  /** Leading fields of four bytes each. */
  lemma {:induction false} Fours(l: Layout, n: nat)
    requires n <= |l| && forall k :: 0 <= k < n ==> l[k] == 4
    ensures forall k :: 0 <= k <= n ==> At(l, k) == 4 * k
  {
    if n > 0 { Fours(l, n - 1); }
  }

  lemma {:induction false} FileMiddle()
    ensures At(FILE_LAYOUT, 12) == 56 && At(FILE_LAYOUT, 16) == 76 && At(FILE_LAYOUT, 20) == 92
  {
    var l := FILE_LAYOUT;
    FileStrings();
    assert At(l, 12) == 56;
    assert At(l, 14) == 68;
    assert At(l, 16) == 76;
    assert At(l, 18) == 84;
    assert At(l, 20) == 92;
  }

  lemma {:induction false} FileLayout()
    ensures Size(FILE_LAYOUT) == 112 && (forall k :: 0 <= k <= 10 ==> At(FILE_LAYOUT, k) == 4 * k)
    ensures At(FILE_LAYOUT, 13) == 64 && At(FILE_LAYOUT, 14) == 68 && At(FILE_LAYOUT, 15) == 72 && At(FILE_LAYOUT, 16) == 76
    ensures At(FILE_LAYOUT, 17) == 80 && At(FILE_LAYOUT, 18) == 84 && At(FILE_LAYOUT, 21) == 96 && At(FILE_LAYOUT, 22) == 100
    ensures At(FILE_LAYOUT, 23) == 104 && At(FILE_LAYOUT, 24) == 108 && At(FILE_LAYOUT, 11) == 48 && At(FILE_LAYOUT, 12) == 56
    ensures At(FILE_LAYOUT, 19) == 88
  {
    var l := FILE_LAYOUT;
    FileStrings();
    FileMiddle();
    assert At(l, 11) == 48;
    assert At(l, 13) == 64;
    assert At(l, 14) == 68;
    assert At(l, 15) == 72;
    assert At(l, 16) == 76;
    assert At(l, 17) == 80;
    assert At(l, 18) == 84;
    assert At(l, 19) == 88;
    assert At(l, 21) == 96;
    assert At(l, 22) == 100;
    assert At(l, 23) == 104;
    assert At(l, 24) == 108;
    assert At(l, 25) == 112;
  }

  lemma {:induction false} SymbolLayout()
    ensures Size(SYMBOL_LAYOUT) == 72 && (forall k :: 0 <= k <= 11 ==> At(SYMBOL_LAYOUT, k) == 4 * k)
    ensures At(SYMBOL_LAYOUT, 15) == 48 && At(SYMBOL_LAYOUT, 16) == 52 && At(SYMBOL_LAYOUT, 17) == 56 && At(SYMBOL_LAYOUT, 18) == 57
    ensures At(SYMBOL_LAYOUT, 12) == 45 && At(SYMBOL_LAYOUT, 13) == 46 && At(SYMBOL_LAYOUT, 20) == 64 && At(SYMBOL_LAYOUT, 21) == 68
  {
    var l := SYMBOL_LAYOUT;
    Fours(l, 11);
    assert At(l, 13) == 46;
    assert At(l, 15) == 48;
    assert At(l, 17) == 56;
    assert At(l, 18) == 57;
    assert At(l, 19) == 58;
    assert At(l, 20) == 64;
    assert At(l, 21) == 68;
    assert At(l, 22) == 72;
  }

  lemma {:induction false} ImportLayout()
    ensures Size(IMPORT_LAYOUT) == 40 && (forall k :: 0 <= k <= 6 ==> At(IMPORT_LAYOUT, k) == 4 * k)
    ensures At(IMPORT_LAYOUT, 8) == 28 && At(IMPORT_LAYOUT, 9) == 32
  {
    var l := IMPORT_LAYOUT;
    Fours(l, 6);
    assert At(l, 8) == 28;
    assert At(l, 9) == 32;
    assert At(l, 11) == 40;
  }

  lemma {:induction false} RefLayout()
    ensures Size(REF_LAYOUT) == 48 && (forall k :: 0 <= k <= 7 ==> At(REF_LAYOUT, k) == 4 * k)
    ensures At(REF_LAYOUT, 12) == 36 && At(REF_LAYOUT, 13) == 40 && At(REF_LAYOUT, 14) == 44
    ensures At(REF_LAYOUT, 8) == 30 && At(REF_LAYOUT, 9) == 31 && At(REF_LAYOUT, 10) == 32
  {
    var l := REF_LAYOUT;
    Fours(l, 7);
    assert At(l, 8) == 30;
    assert At(l, 10) == 32;
    assert At(l, 12) == 36;
    assert At(l, 13) == 40;
    assert At(l, 14) == 44;
    assert At(l, 15) == 48;
  }

  lemma {:induction false} EightLayout(l: Layout)
    requires l == [4, 4, 4, 4, 4, 4, 4, 4]
    ensures Size(l) == 32 && forall k :: 0 <= k <= 8 ==> At(l, k) == 4 * k
  {
    Fours(l, 8);
  }

  lemma {:induction false} FourLayout(l: Layout)
    requires l == [4, 4, 4, 4]
    ensures Size(l) == 16 && forall k :: 0 <= k <= 4 ==> At(l, k) == 4 * k
  {
    Fours(l, 4);
  }

  lemma {:induction false} SmallLayouts()
    ensures Size(POST_LAYOUT) == 8 && Size(STATS_LAYOUT) == 16 && Size(INDEX_LAYOUT) == 4
    ensures At(POST_LAYOUT, 0) == 0 && At(POST_LAYOUT, 1) == 4 && At(STATS_LAYOUT, 1) == 8 && At(INDEX_LAYOUT, 0) == 0
  {
    Fours(POST_LAYOUT, 2);
    Fours(INDEX_LAYOUT, 1);
    assert At(STATS_LAYOUT, 1) == 8;
  }

  function Bytes(s: Str): (b: seq<byte>)
    ensures |b| == |s|
  {
    seq(|s|, i requires 0 <= i < |s| => s[i] as int)
  }

  function Text(b: seq<byte>): (s: Str)
    ensures |s| == |b|
  {
    seq(|b|, i requires 0 <= i < |b| => b[i] as char)
  }

  lemma {:induction false} TextOfBytes(s: Str)
    ensures Text(Bytes(s)) == s
  {
  }

  // ---------------------------------------------------------------------------------------------
  // Rows

  /** Every row's fields fit. */
  ghost predicate RowsFit(layout: Layout, rows: seq<seq<nat>>)
  {
    forall i :: 0 <= i < |rows| ==> |rows[i]| == |layout| && FitsLayout(layout, rows[i])
  }

  /** The rows of a section whose length is a whole number of records. */
  function Rows(layout: Layout, s: seq<byte>): (r: seq<seq<nat>>)
    requires Size(layout) > 0 && |s| % Size(layout) == 0
    ensures |r| == |s| / Size(layout) && forall i :: 0 <= i < |r| ==> |r[i]| == |layout|
  {
    seq(|s| / Size(layout), i requires 0 <= i < |s| / Size(layout) => RowAt(layout, s, i))
  }

  function RowAt(layout: Layout, s: seq<byte>, i: nat): (r: seq<nat>)
    requires Size(layout) > 0 && |s| % Size(layout) == 0 && i < |s| / Size(layout)
    ensures |r| == |layout|
  {
    RowInside(i, |s| / Size(layout), Size(layout));
    Row(layout, s, i)
  }

  lemma {:induction false} WholeRows(n: nat, size: nat)
    requires size > 0
    ensures n * size % size == 0 && n * size / size == n
  {
    var q, r := n * size / size, n * size % size;
    assert n * size == q * size + r;
    Multiples(n, q, size, r);
  }

  lemma {:induction false} Multiples(n: nat, q: int, size: nat, r: nat)
    requires n * size == q * size + r && r < size
    ensures n == q && r == 0
  {
    assert (n - q) * size == r;
    Scaled(n - q, size);
  }

  lemma {:induction false} Scaled(a: int, size: nat)
    ensures a >= 1 ==> a * size >= size
    ensures a <= -1 ==> a * size + size <= 0
  {
  }

  /** Reading a section gives back the rows it was written from. */
  lemma {:induction false} RowsOfSection(layout: Layout, rows: seq<seq<nat>>)
    requires RowsFit(layout, rows) && Size(layout) > 0
    ensures |Section(layout, rows)| % Size(layout) == 0 && Rows(layout, Section(layout, rows)) == rows
  {
    hide Section, Size, Row, FitsLayout;
    WholeRows(|rows|, Size(layout));
    SectionSize(layout, rows);
    forall i | 0 <= i < |rows| ensures RowAt(layout, Section(layout, rows), i) == rows[i] {
      RowOfSection(layout, rows, i);
    }
  }

  lemma {:induction false} SectionSize(layout: Layout, rows: seq<seq<nat>>)
    requires forall i :: 0 <= i < |rows| ==> |rows[i]| == |layout|
    ensures |Section(layout, rows)| == |rows| * Size(layout)
  {
  }

  // ---------------------------------------------------------------------------------------------
  // Records as sections

  /** The records' rows of fields. */
  function Rowed<U(!new)>(layout: Layout, recs: seq<U>, fields: U -> seq<nat>): (rows: seq<seq<nat>>)
    requires forall x :: |fields(x)| == |layout|
    ensures |rows| == |recs| && forall i :: 0 <= i < |rows| ==> rows[i] == fields(recs[i]) && |rows[i]| == |layout|
  {
    seq(|recs|, i requires 0 <= i < |recs| => fields(recs[i]))
  }

  function Written<U(!new)>(layout: Layout, recs: seq<U>, fields: U -> seq<nat>): seq<byte>
    requires forall x :: |fields(x)| == |layout|
  {
    Section(layout, Rowed(layout, recs, fields))
  }

  predicate Whole(layout: Layout, s: seq<byte>)
  {
    Size(layout) > 0 && |s| % Size(layout) == 0
  }

  /** The records of a section. */
  function Read<U>(layout: Layout, s: seq<byte>, of: seq<nat> --> U): (recs: seq<U>)
    requires Whole(layout, s) && forall v: seq<nat> :: |v| == |layout| ==> of.requires(v)
    ensures |recs| == |s| / Size(layout)
    ensures forall i :: 0 <= i < |recs| ==> recs[i] == of(RowAt(layout, s, i))
  {
    var rows := Rows(layout, s);
    seq(|rows|, i requires 0 <= i < |rows| => of(rows[i]))
  }

  /** Every field of every record fits its bytes. */
  ghost predicate Fit<U(!new)>(layout: Layout, recs: seq<U>, fields: U -> seq<nat>)
  {
    forall i :: 0 <= i < |recs| ==> FitsLayout(layout, fields(recs[i]))
  }

  /** Reading a section gives back the records it was written from. */
  lemma {:induction false} ReadOfWritten<U(!new)>(layout: Layout, recs: seq<U>, fields: U -> seq<nat>, of: seq<nat> --> U)
    requires (forall x :: |fields(x)| == |layout|) && (forall v: seq<nat> :: |v| == |layout| ==> of.requires(v))
    requires (forall x :: of(fields(x)) == x) && Fit(layout, recs, fields) && Size(layout) > 0
    ensures Whole(layout, Written(layout, recs, fields)) && Read(layout, Written(layout, recs, fields), of) == recs
  {
    hide Section, Size, Rows, FitsLayout, Row;
    var rows := Rowed(layout, recs, fields);
    RowsOfSection(layout, rows);
    var s := Written(layout, recs, fields);
    assert forall i :: 0 <= i < |recs| ==> Rows(layout, s)[i] == fields(recs[i]);
    forall i | 0 <= i < |recs| ensures Read(layout, s, of)[i] == recs[i] {
      RowOfSection(layout, rows, i);
      assert RowAt(layout, s, i) == rows[i];
    }
  }

  function IndexFields(n: nat): seq<nat> { [n] }

  function IndexOf(v: seq<nat>): nat
    requires |v| == 1
  {
    v[0]
  }

  /** The sections of the tables, in order. */
  function SectionsOf(t: T.Tables): (s: seq<seq<byte>>)
    ensures |s| == SECTIONS
  {
    [Bytes(t.strs), Written(FILE_LAYOUT, t.files, FileFields), Written(SYMBOL_LAYOUT, t.syms, SymbolFields),
     Written(INDEX_LAYOUT, t.symByFile, IndexFields), Written(IMPORT_LAYOUT, t.imps, ImportFields),
     Written(INDEX_LAYOUT, t.impByPath, IndexFields), Written(REF_LAYOUT, t.refs, RefFields),
     Written(INDEX_LAYOUT, t.refsByEnclosing, IndexFields), Written(INDEX_LAYOUT, t.refsByFile, IndexFields),
     Packed(STATS_LAYOUT, [t.docs, t.total]), Written(INDEX_LAYOUT, t.docLen, IndexFields),
     Written(DICT_LAYOUT, t.terms, DictFields), Written(POST_LAYOUT, t.posts, PostFields), Written(PAIR_LAYOUT, t.names, PairFields),
     Written(DICT_LAYOUT, t.tris, DictFields), Written(INDEX_LAYOUT, t.triPost, IndexFields),
     Written(INDEX_LAYOUT, t.pkgFiles, IndexFields), Written(PAIR_LAYOUT, t.impNames, PairFields),
     Written(EXPORT_LAYOUT, t.exps, ExportFields), Written(HINT_LAYOUT, t.hints, HintFields)]
  }

  /** Every section of records holds whole ones. */
  predicate SizesOk(s: seq<seq<byte>>)
    requires |s| == SECTIONS
  {
    && Whole(FILE_LAYOUT, s[1]) && Whole(SYMBOL_LAYOUT, s[2]) && Whole(INDEX_LAYOUT, s[3]) && Whole(IMPORT_LAYOUT, s[4])
    && Whole(INDEX_LAYOUT, s[5]) && Whole(REF_LAYOUT, s[6]) && Whole(INDEX_LAYOUT, s[7]) && Whole(INDEX_LAYOUT, s[8])
    && |s[9]| == Size(STATS_LAYOUT) && Whole(INDEX_LAYOUT, s[10]) && Whole(DICT_LAYOUT, s[11]) && Whole(POST_LAYOUT, s[12])
    && Whole(PAIR_LAYOUT, s[13]) && Whole(DICT_LAYOUT, s[14]) && Whole(INDEX_LAYOUT, s[15]) && Whole(INDEX_LAYOUT, s[16])
    && Whole(PAIR_LAYOUT, s[17]) && Whole(EXPORT_LAYOUT, s[18]) && Whole(HINT_LAYOUT, s[19])
  }

  function TablesOf(s: seq<seq<byte>>): T.Tables
    requires |s| == SECTIONS && SizesOk(s)
  {
    var stats := Unpacked(STATS_LAYOUT, s[9]);
    T.Tables(Text(s[0]), Read(FILE_LAYOUT, s[1], FileOf), Read(SYMBOL_LAYOUT, s[2], SymbolOf), Read(INDEX_LAYOUT, s[3], IndexOf),
             Read(IMPORT_LAYOUT, s[4], ImportOf), Read(INDEX_LAYOUT, s[5], IndexOf), Read(REF_LAYOUT, s[6], RefOf),
             Read(INDEX_LAYOUT, s[7], IndexOf), Read(INDEX_LAYOUT, s[8], IndexOf), stats[0], stats[1],
             Read(INDEX_LAYOUT, s[10], IndexOf), Read(DICT_LAYOUT, s[11], DictOf), Read(POST_LAYOUT, s[12], PostOf),
             Read(PAIR_LAYOUT, s[13], PairOf), Read(DICT_LAYOUT, s[14], DictOf), Read(INDEX_LAYOUT, s[15], IndexOf),
             Read(INDEX_LAYOUT, s[16], IndexOf), Read(PAIR_LAYOUT, s[17], PairOf), Read(EXPORT_LAYOUT, s[18], ExportOf),
             Read(HINT_LAYOUT, s[19], HintOf))
  }

  /** Parse: the tables of an image, None when anything about them is corrupt. */
  function Parsed(data: seq<byte>, hash: Hash): Option<T.Tables>
  {
    match Opened(data, hash)
    case None => None
    case Some(c) =>
      if |c.sections| != SECTIONS || !SizesOk(c.sections) then None
      else if T.Valid(TablesOf(c.sections)) then Some(TablesOf(c.sections)) else None
  }

  /** Every field of every record fits its bytes. */
  ghost predicate TablesFit(t: T.Tables)
  {
    && Fit(FILE_LAYOUT, t.files, FileFields) && Fit(SYMBOL_LAYOUT, t.syms, SymbolFields) && Fit(INDEX_LAYOUT, t.symByFile, IndexFields)
    && Fit(IMPORT_LAYOUT, t.imps, ImportFields) && Fit(INDEX_LAYOUT, t.impByPath, IndexFields) && Fit(REF_LAYOUT, t.refs, RefFields)
    && Fit(INDEX_LAYOUT, t.refsByEnclosing, IndexFields) && Fit(INDEX_LAYOUT, t.refsByFile, IndexFields)
    && FitsLayout(STATS_LAYOUT, [t.docs, t.total]) && Fit(INDEX_LAYOUT, t.docLen, IndexFields)
    && Fit(DICT_LAYOUT, t.terms, DictFields) && Fit(POST_LAYOUT, t.posts, PostFields) && Fit(PAIR_LAYOUT, t.names, PairFields)
    && Fit(DICT_LAYOUT, t.tris, DictFields) && Fit(INDEX_LAYOUT, t.triPost, IndexFields) && Fit(INDEX_LAYOUT, t.pkgFiles, IndexFields)
    && Fit(PAIR_LAYOUT, t.impNames, PairFields) && Fit(EXPORT_LAYOUT, t.exps, ExportFields) && Fit(HINT_LAYOUT, t.hints, HintFields)
  }

  lemma {:induction false} IndexReturns(s: seq<nat>)
    requires Fit(INDEX_LAYOUT, s, IndexFields)
    ensures var b := Written(INDEX_LAYOUT, s, IndexFields); Whole(INDEX_LAYOUT, b) && Read(INDEX_LAYOUT, b, IndexOf) == s
  {
    SmallLayouts();
    ReadOfWritten(INDEX_LAYOUT, s, IndexFields, IndexOf);
  }

  lemma {:induction false} DictReturns(s: seq<DictRec>)
    requires Fit(DICT_LAYOUT, s, DictFields)
    ensures var b := Written(DICT_LAYOUT, s, DictFields); Whole(DICT_LAYOUT, b) && Read(DICT_LAYOUT, b, DictOf) == s
  {
    FourLayout(DICT_LAYOUT);
    ReadOfWritten(DICT_LAYOUT, s, DictFields, DictOf);
  }

  lemma {:induction false} PairsReturn(s: seq<PairRec>)
    requires Fit(PAIR_LAYOUT, s, PairFields)
    ensures var b := Written(PAIR_LAYOUT, s, PairFields); Whole(PAIR_LAYOUT, b) && Read(PAIR_LAYOUT, b, PairOf) == s
  {
    FourLayout(PAIR_LAYOUT);
    ReadOfWritten(PAIR_LAYOUT, s, PairFields, PairOf);
  }

  lemma {:induction false} FileUnfields(r: FileRec)
    ensures FileOf(FileFields(r)) == r
  {
  }

  lemma {:induction false} FilesReturn(s: seq<FileRec>)
    requires Fit(FILE_LAYOUT, s, FileFields)
    ensures var b := Written(FILE_LAYOUT, s, FileFields); Whole(FILE_LAYOUT, b) && Read(FILE_LAYOUT, b, FileOf) == s
  {
    FileLayout();
    forall r: FileRec ensures FileOf(FileFields(r)) == r { FileUnfields(r); }
    ReadOfWritten(FILE_LAYOUT, s, FileFields, FileOf);
  }

  lemma {:induction false} SymbolUnfields(r: SymRec)
    ensures SymbolOf(SymbolFields(r)) == r
  {
  }

  lemma {:induction false} SymbolsReturn(s: seq<SymRec>)
    requires Fit(SYMBOL_LAYOUT, s, SymbolFields)
    ensures var b := Written(SYMBOL_LAYOUT, s, SymbolFields); Whole(SYMBOL_LAYOUT, b) && Read(SYMBOL_LAYOUT, b, SymbolOf) == s
  {
    SymbolLayout();
    forall r: SymRec ensures SymbolOf(SymbolFields(r)) == r { SymbolUnfields(r); }
    ReadOfWritten(SYMBOL_LAYOUT, s, SymbolFields, SymbolOf);
  }

  lemma {:induction false} ImportsReturn(s: seq<ImportRec>)
    requires Fit(IMPORT_LAYOUT, s, ImportFields)
    ensures var b := Written(IMPORT_LAYOUT, s, ImportFields); Whole(IMPORT_LAYOUT, b) && Read(IMPORT_LAYOUT, b, ImportOf) == s
  {
    ImportLayout();
    ReadOfWritten(IMPORT_LAYOUT, s, ImportFields, ImportOf);
  }

  lemma {:induction false} RefsReturn(s: seq<RefRec>)
    requires Fit(REF_LAYOUT, s, RefFields)
    ensures var b := Written(REF_LAYOUT, s, RefFields); Whole(REF_LAYOUT, b) && Read(REF_LAYOUT, b, RefOf) == s
  {
    RefLayout();
    ReadOfWritten(REF_LAYOUT, s, RefFields, RefOf);
  }

  lemma {:induction false} PostsReturn(s: seq<PostRec>)
    requires Fit(POST_LAYOUT, s, PostFields)
    ensures var b := Written(POST_LAYOUT, s, PostFields); Whole(POST_LAYOUT, b) && Read(POST_LAYOUT, b, PostOf) == s
  {
    SmallLayouts();
    ReadOfWritten(POST_LAYOUT, s, PostFields, PostOf);
  }

  lemma {:induction false} ExportsReturn(s: seq<ExportRec>)
    requires Fit(EXPORT_LAYOUT, s, ExportFields)
    ensures var b := Written(EXPORT_LAYOUT, s, ExportFields); Whole(EXPORT_LAYOUT, b) && Read(EXPORT_LAYOUT, b, ExportOf) == s
  {
    EightLayout(EXPORT_LAYOUT);
    ReadOfWritten(EXPORT_LAYOUT, s, ExportFields, ExportOf);
  }

  lemma {:induction false} HintsReturn(s: seq<HintRec>)
    requires Fit(HINT_LAYOUT, s, HintFields)
    ensures var b := Written(HINT_LAYOUT, s, HintFields); Whole(HINT_LAYOUT, b) && Read(HINT_LAYOUT, b, HintOf) == s
  {
    EightLayout(HINT_LAYOUT);
    ReadOfWritten(HINT_LAYOUT, s, HintFields, HintOf);
  }

  lemma {:induction false} FactsReturn(t: T.Tables)
    requires TablesFit(t)
    ensures var s := SectionsOf(t);
      && Whole(FILE_LAYOUT, s[1]) && Read(FILE_LAYOUT, s[1], FileOf) == t.files
      && Whole(SYMBOL_LAYOUT, s[2]) && Read(SYMBOL_LAYOUT, s[2], SymbolOf) == t.syms
      && Whole(INDEX_LAYOUT, s[3]) && Read(INDEX_LAYOUT, s[3], IndexOf) == t.symByFile
      && Whole(IMPORT_LAYOUT, s[4]) && Read(IMPORT_LAYOUT, s[4], ImportOf) == t.imps
      && Whole(INDEX_LAYOUT, s[5]) && Read(INDEX_LAYOUT, s[5], IndexOf) == t.impByPath
      && Whole(REF_LAYOUT, s[6]) && Read(REF_LAYOUT, s[6], RefOf) == t.refs
      && Whole(INDEX_LAYOUT, s[7]) && Read(INDEX_LAYOUT, s[7], IndexOf) == t.refsByEnclosing
      && Whole(INDEX_LAYOUT, s[8]) && Read(INDEX_LAYOUT, s[8], IndexOf) == t.refsByFile
  {
    hide Written, Read, Fit, Whole, Packed, Unpacked, Size, Bytes, Text, FitsLayout;
    FilesReturn(t.files);
    SymbolsReturn(t.syms);
    IndexReturns(t.symByFile);
    ImportsReturn(t.imps);
    IndexReturns(t.impByPath);
    RefsReturn(t.refs);
    IndexReturns(t.refsByEnclosing);
    IndexReturns(t.refsByFile);
  }

  lemma {:induction false} SearchReturns(t: T.Tables)
    requires TablesFit(t)
    ensures var s := SectionsOf(t);
      && Whole(INDEX_LAYOUT, s[10]) && Read(INDEX_LAYOUT, s[10], IndexOf) == t.docLen
      && Whole(DICT_LAYOUT, s[11]) && Read(DICT_LAYOUT, s[11], DictOf) == t.terms
      && Whole(POST_LAYOUT, s[12]) && Read(POST_LAYOUT, s[12], PostOf) == t.posts
      && Whole(PAIR_LAYOUT, s[13]) && Read(PAIR_LAYOUT, s[13], PairOf) == t.names
      && Whole(DICT_LAYOUT, s[14]) && Read(DICT_LAYOUT, s[14], DictOf) == t.tris
      && Whole(INDEX_LAYOUT, s[15]) && Read(INDEX_LAYOUT, s[15], IndexOf) == t.triPost
      && Whole(INDEX_LAYOUT, s[16]) && Read(INDEX_LAYOUT, s[16], IndexOf) == t.pkgFiles
      && Whole(PAIR_LAYOUT, s[17]) && Read(PAIR_LAYOUT, s[17], PairOf) == t.impNames
      && Whole(EXPORT_LAYOUT, s[18]) && Read(EXPORT_LAYOUT, s[18], ExportOf) == t.exps
      && Whole(HINT_LAYOUT, s[19]) && Read(HINT_LAYOUT, s[19], HintOf) == t.hints
  {
    hide Written, Read, Fit, Whole, Packed, Unpacked, Size, Bytes, Text, FitsLayout;
    IndexReturns(t.docLen);
    DictReturns(t.terms);
    PostsReturn(t.posts);
    PairsReturn(t.names);
    DictReturns(t.tris);
    IndexReturns(t.triPost);
    IndexReturns(t.pkgFiles);
    PairsReturn(t.impNames);
    ExportsReturn(t.exps);
    HintsReturn(t.hints);
  }

  lemma {:induction false} StatsReturn(t: T.Tables)
    requires TablesFit(t)
    ensures var s := SectionsOf(t);
      |s[9]| == Size(STATS_LAYOUT) && Unpacked(STATS_LAYOUT, s[9]) == [t.docs, t.total] && Text(s[0]) == t.strs
  {
    hide Written, Read, Fit, Whole, Packed, Unpacked, Size, Bytes, Text, FitsLayout;
    TextOfBytes(t.strs);
    UnpackedOfPacked(STATS_LAYOUT, [t.docs, t.total]);
    PackedSize(STATS_LAYOUT, [t.docs, t.total]);
  }

  lemma {:induction false} SectionsReturn(t: T.Tables)
    requires TablesFit(t)
    ensures SizesOk(SectionsOf(t)) && TablesOf(SectionsOf(t)) == t
  {
    hide SectionsOf, TablesFit, Read, Whole, Unpacked, Size, Text;
    FactsReturn(t);
    SearchReturns(t);
    StatsReturn(t);
  }

  lemma {:induction false} PackedSize(layout: Layout, v: seq<nat>)
    requires |v| == |layout|
    ensures |Packed(layout, v)| == Size(layout)
  {
  }

  /** Parsing an image gives back the tables it was written from. */
  lemma {:induction false} ParsedImage(t: T.Tables, kind: nat, generation: nat, hash: Hash)
    requires TablesFit(t) && T.Valid(t) && Fits(Container(kind, generation, SectionsOf(t)), hash)
    ensures Parsed(Image(Container(kind, generation, SectionsOf(t)), hash), hash) == Some(t)
  {
    hide Image, Opened, TablesFit, SizesOk, TablesOf, SectionsOf, T.Valid, Fits;
    var s := SectionsOf(t);
    OpenedImage(Container(kind, generation, s), hash);
    SectionsReturn(t);
    CountSections(t);
  }

  lemma {:induction false} CountSections(t: T.Tables)
    ensures |SectionsOf(t)| == SECTIONS
  {
  }
}
