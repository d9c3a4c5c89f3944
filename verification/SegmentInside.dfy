/**
 What an accepted image guarantees about its bytes: every string, range and link that an accessor reads lies inside its
 section, and every chain of indexes ends on a whole record.
 */
module SegmentInside {
  import opened Common
  import opened SegmentBytes
  import opened SegmentRecords
  import opened SegmentTables
  import I = SegmentImage

  type Sections = s: seq<seq<byte>> | |s| == SECTIONS witness seq(SECTIONS, _ => [])

  // ---------------------------------------------------------------------------------------------
  // Places in the bytes

  /** Record i of a section of records of this size is whole. */
  predicate Whole(s: Sections, sec: nat, size: nat, i: nat)
    requires sec < SECTIONS
  {
    (i + 1) * size <= |s[sec]|
  }

  /** The string described at a place lies in the string section. */
  predicate StringAt(s: Sections, sec: nat, at: nat)
    requires sec < SECTIONS
  {
    at + 8 <= |s[sec]| && U(s[sec], at, 4) + U(s[sec], at + 4, 4) <= |s[0]|
  }

  /** The range of records described at a place lies in the section they are in. */
  predicate RangeAt(s: Sections, sec: nat, at: nat, of: nat, size: nat)
    requires sec < SECTIONS && of < SECTIONS
  {
    at + 8 <= |s[sec]| && (U(s[sec], at, 4) + U(s[sec], at + 4, 4)) * size <= |s[of]|
  }

  /** The index at a place is one of a record. */
  predicate IndexAt(s: Sections, sec: nat, at: nat, of: nat, size: nat)
    requires sec < SECTIONS && of < SECTIONS
  {
    at + 4 <= |s[sec]| && Whole(s, of, size, U(s[sec], at, 4))
  }

  /** The link at a place is none, or one to a record. */
  predicate LinkAt(s: Sections, sec: nat, at: nat, of: nat, size: nat)
    requires sec < SECTIONS && of < SECTIONS
  {
    at + 4 <= |s[sec]| && (U(s[sec], at, 4) == NONE32 || Whole(s, of, size, U(s[sec], at, 4)))
  }

  // ---------------------------------------------------------------------------------------------
  // Records, by the documented offsets

  predicate FileInside(s: Sections, i: nat)
  {
    var b := i * 112;
    && StringAt(s, 1, b) && StringAt(s, 1, b + 8) && StringAt(s, 1, b + 16) && StringAt(s, 1, b + 24) && StringAt(s, 1, b + 32)
    && RangeAt(s, 1, b + 64, 3, 4) && RangeAt(s, 1, b + 72, 4, 40) && RangeAt(s, 1, b + 80, 8, 4)
    && RangeAt(s, 1, b + 96, 18, 32) && RangeAt(s, 1, b + 104, 19, 32)
  }

  predicate SymbolInside(s: Sections, i: nat)
  {
    var b := i * 72;
    && StringAt(s, 2, b) && StringAt(s, 2, b + 8) && StringAt(s, 2, b + 16) && StringAt(s, 2, b + 24) && StringAt(s, 2, b + 64)
    && IndexAt(s, 2, b + 32, 1, 112) && LinkAt(s, 2, b + 48, 2, 72)
  }

  predicate ImportInside(s: Sections, i: nat)
  {
    var b := i * 40;
    StringAt(s, 4, b) && StringAt(s, 4, b + 8) && IndexAt(s, 4, b + 16, 1, 112) && RangeAt(s, 4, b + 28, 17, 16)
  }

  predicate RefInside(s: Sections, i: nat)
  {
    var b := i * 48;
    && StringAt(s, 6, b) && StringAt(s, 6, b + 8) && StringAt(s, 6, b + 36) && IndexAt(s, 6, b + 16, 1, 112)
    && LinkAt(s, 6, b + 20, 2, 72) && LinkAt(s, 6, b + 44, 6, 48)
  }

  predicate ExportInside(s: Sections, i: nat)
  {
    var b := i * 32;
    StringAt(s, 18, b) && StringAt(s, 18, b + 8) && StringAt(s, 18, b + 16) && IndexAt(s, 18, b + 24, 1, 112)
  }

  predicate HintInside(s: Sections, i: nat)
  {
    var b := i * 32;
    StringAt(s, 19, b) && StringAt(s, 19, b + 8) && IndexAt(s, 19, b + 16, 1, 112) && LinkAt(s, 19, b + 20, 2, 72)
  }

  /** The names (section 13) and imported names (section 17). */
  predicate PairInside(s: Sections, sec: nat, i: nat)
    requires sec < SECTIONS
  {
    StringAt(s, sec, i * 16) && StringAt(s, sec, i * 16 + 8)
  }

  /** The terms (section 11, postings in 12) and trigrams (section 14, postings in 15). */
  predicate EntryInside(s: Sections, sec: nat, i: nat, of: nat, size: nat)
    requires sec < SECTIONS && of < SECTIONS
  {
    StringAt(s, sec, i * 16) && RangeAt(s, sec, i * 16 + 8, of, size)
  }

  /** Every record of every section, and every entry of every index list. */
  ghost predicate Inside(s: Sections)
  {
    && (forall i: nat :: Whole(s, 1, 112, i) ==> FileInside(s, i))
    && (forall i: nat :: Whole(s, 2, 72, i) ==> SymbolInside(s, i))
    && (forall i: nat :: Whole(s, 4, 40, i) ==> ImportInside(s, i))
    && (forall i: nat :: Whole(s, 6, 48, i) ==> RefInside(s, i))
    && (forall i: nat :: Whole(s, 18, 32, i) ==> ExportInside(s, i))
    && (forall i: nat :: Whole(s, 19, 32, i) ==> HintInside(s, i))
    && (forall i: nat :: Whole(s, 13, 16, i) ==> PairInside(s, 13, i))
    && (forall i: nat :: Whole(s, 17, 16, i) ==> PairInside(s, 17, i))
    && (forall i: nat :: Whole(s, 11, 16, i) ==> EntryInside(s, 11, i, 12, 8))
    && (forall i: nat :: Whole(s, 14, 16, i) ==> EntryInside(s, 14, i, 15, 4))
    && (forall i: nat :: Whole(s, 12, 8, i) ==> IndexAt(s, 12, i * 8, 2, 72))
    && Listed(s, 3, 2, 72) && Listed(s, 5, 4, 40) && Listed(s, 7, 6, 48) && Listed(s, 8, 6, 48) && Listed(s, 15, 13, 16) && Listed(s, 16, 1, 112)
    && |s[9]| == 16 && (forall i: nat :: Whole(s, 2, 72, i) ==> Whole(s, 10, 4, i))
  }

  /** Every entry of an index list is the index of a record. */
  ghost predicate Listed(s: Sections, sec: nat, of: nat, size: nat)
    requires sec < SECTIONS && of < SECTIONS
  {
    forall i: nat :: Whole(s, sec, 4, i) ==> IndexAt(s, sec, i * 4, of, size)
  }

  // ---------------------------------------------------------------------------------------------
  // From bytes to records and back

  /** Reading a field of record i by its offset is taking it from the record. */
  lemma {:induction false} FieldReads(layout: Layout, b: seq<byte>, i: nat, j: nat)
    requires I.Whole(layout, b) && (i + 1) * Size(layout) <= |b| && j < |layout|
    ensures i < |b| / Size(layout)
    ensures i * Size(layout) + At(layout, j) + layout[j] <= |b|
    ensures U(b, i * Size(layout) + At(layout, j), layout[j]) == I.RowAt(layout, b, i)[j]
  {
    hide At, Size, U;
    var size := Size(layout);
    CountOf(|b|, size, i);
    RowBounds(i, size);
    FieldInside(layout, j);
    SliceReads(b, i * size, size, At(layout, j), layout[j]);
  }

  /** There are as many records as fit. */
  lemma {:induction false} CountOf(n: nat, size: nat, i: nat)
    requires size > 0 && n % size == 0
    ensures i < n / size <==> (i + 1) * size <= n
  {
    var q := n / size;
    assert n == q * size;
    if i < q { RowInside(i, q, size); }
    if i >= q {
      RowInside(q, i + 1, size);
      RowBounds(q, size);
    }
  }

  /** A field of four bytes, with the record's size and the field's offset written out. */
  lemma {:induction false} Reads4(layout: Layout, b: seq<byte>, i: nat, j: nat, size: nat, at: nat)
    requires I.Whole(layout, b) && Size(layout) == size && j < |layout| && layout[j] == 4 && At(layout, j) == at && (i + 1) * size <= |b|
    ensures i < |b| / size && i * size + at + 4 <= |b| && U(b, i * size + at, 4) == I.RowAt(layout, b, i)[j]
  {
    FieldReads(layout, b, i, j);
  }

  /** A string reference: two fields of four bytes. */
  lemma {:induction false} StringReads(s: Sections, sec: nat, layout: Layout, i: nat, j: nat, size: nat, at: nat)
    requires sec < SECTIONS && I.Whole(layout, s[sec]) && Size(layout) == size && j + 1 < |layout| && layout[j] == 4 && layout[j + 1] == 4
    requires At(layout, j) == at && At(layout, j + 1) == at + 4 && Whole(s, sec, size, i)
    ensures i < |s[sec]| / size
    ensures var row := I.RowAt(layout, s[sec], i); row[j] + row[j + 1] <= |s[0]| ==> StringAt(s, sec, i * size + at)
  {
    hide U, At, Size, I.RowAt;
    Reads4(layout, s[sec], i, j, size, at);
    Reads4(layout, s[sec], i, j + 1, size, at + 4);
  }

  lemma {:induction false} RangeReads(s: Sections, sec: nat, layout: Layout, i: nat, j: nat, size: nat, at: nat, of: nat, ofLayout: Layout, ofSize: nat)
    requires sec < SECTIONS && I.Whole(layout, s[sec]) && Size(layout) == size && j + 1 < |layout| && layout[j] == 4 && layout[j + 1] == 4
    requires At(layout, j) == at && At(layout, j + 1) == at + 4 && Whole(s, sec, size, i)
    requires of < SECTIONS && I.Whole(ofLayout, s[of]) && Size(ofLayout) == ofSize
    ensures i < |s[sec]| / size
    ensures var row := I.RowAt(layout, s[sec], i);
      row[j] + row[j + 1] <= |s[of]| / ofSize ==> RangeAt(s, sec, i * size + at, of, ofSize)
  {
    hide U, At, Size, I.RowAt;
    Reads4(layout, s[sec], i, j, size, at);
    Reads4(layout, s[sec], i, j + 1, size, at + 4);
    var row := I.RowAt(layout, s[sec], i);
    var n := row[j] + row[j + 1];
    if 0 < n <= |s[of]| / ofSize { CountOf(|s[of]|, ofSize, n - 1); }
  }

  lemma {:induction false} IndexReads(s: Sections, sec: nat, layout: Layout, i: nat, j: nat, size: nat, at: nat, of: nat, ofLayout: Layout, ofSize: nat)
    requires sec < SECTIONS && I.Whole(layout, s[sec]) && Size(layout) == size && j < |layout| && layout[j] == 4
    requires At(layout, j) == at && Whole(s, sec, size, i)
    requires of < SECTIONS && I.Whole(ofLayout, s[of]) && Size(ofLayout) == ofSize
    ensures i < |s[sec]| / size
    ensures var x := I.RowAt(layout, s[sec], i)[j];
      && (x < |s[of]| / ofSize ==> IndexAt(s, sec, i * size + at, of, ofSize))
      && (x == NONE32 || x < |s[of]| / ofSize ==> LinkAt(s, sec, i * size + at, of, ofSize))
  {
    hide U, At, Size, I.RowAt;
    Reads4(layout, s[sec], i, j, size, at);
    CountOf(|s[of]|, ofSize, I.RowAt(layout, s[sec], i)[j]);
  }

  /** Every section of records is whole, and how many records it has. */
  lemma {:induction false} Counts(s: Sections)
    requires I.SizesOk(s)
    ensures I.Whole(FILE_LAYOUT, s[1]) && I.Whole(SYMBOL_LAYOUT, s[2]) && I.Whole(INDEX_LAYOUT, s[3]) && I.Whole(IMPORT_LAYOUT, s[4])
    ensures I.Whole(INDEX_LAYOUT, s[5]) && I.Whole(REF_LAYOUT, s[6]) && I.Whole(INDEX_LAYOUT, s[7]) && I.Whole(INDEX_LAYOUT, s[8])
    ensures |s[9]| == 16 && I.Whole(INDEX_LAYOUT, s[10]) && I.Whole(DICT_LAYOUT, s[11]) && I.Whole(POST_LAYOUT, s[12])
    ensures I.Whole(PAIR_LAYOUT, s[13]) && I.Whole(DICT_LAYOUT, s[14]) && I.Whole(INDEX_LAYOUT, s[15]) && I.Whole(INDEX_LAYOUT, s[16])
    ensures I.Whole(PAIR_LAYOUT, s[17]) && I.Whole(EXPORT_LAYOUT, s[18]) && I.Whole(HINT_LAYOUT, s[19])
    ensures var t := I.TablesOf(s);
      && |t.strs| == |s[0]| && |t.files| == |s[1]| / 112 && |t.syms| == |s[2]| / 72 && |t.symByFile| == |s[3]| / 4
      && |t.imps| == |s[4]| / 40 && |t.impByPath| == |s[5]| / 4 && |t.refs| == |s[6]| / 48 && |t.refsByEnclosing| == |s[7]| / 4
      && |t.refsByFile| == |s[8]| / 4 && |t.docLen| == |s[10]| / 4 && |t.terms| == |s[11]| / 16 && |t.posts| == |s[12]| / 8
      && |t.names| == |s[13]| / 16 && |t.tris| == |s[14]| / 16 && |t.triPost| == |s[15]| / 4 && |t.pkgFiles| == |s[16]| / 4
      && |t.impNames| == |s[17]| / 16 && |t.exps| == |s[18]| / 32 && |t.hints| == |s[19]| / 32
  {
    hide I.RowAt, Size, I.Rows, I.Text;
    I.LayoutsMatch();
  }

  lemma {:induction false} FileAt(s: Sections, i: nat)
    requires I.SizesOk(s) && Valid(I.TablesOf(s)) && Whole(s, 1, 112, i)
    ensures I.Whole(FILE_LAYOUT, s[1]) && i < |I.TablesOf(s).files| && FileOk(I.TablesOf(s), i) && i < |s[1]| / Size(FILE_LAYOUT)
    ensures I.TablesOf(s).files[i] == FileOf(I.RowAt(FILE_LAYOUT, s[1], i))
  {
    hide I.RowAt, Size, I.SizesOk;
    Counts(s);
    I.LayoutsMatch();
    CountOf(|s[1]|, 112, i);
    FileRead(s);
  }

  lemma {:induction false} FileRead(s: Sections)
    requires I.SizesOk(s)
    ensures I.Whole(FILE_LAYOUT, s[1]) && I.TablesOf(s).files == I.Read(FILE_LAYOUT, s[1], FileOf)
  {
    hide I.RowAt, Size, I.Read;
  }

  lemma {:induction false} FileStringsInside(s: Sections, i: nat)
    requires I.SizesOk(s) && Valid(I.TablesOf(s)) && Whole(s, 1, 112, i)
    ensures var b := i * 112;
      StringAt(s, 1, b) && StringAt(s, 1, b + 8) && StringAt(s, 1, b + 16) && StringAt(s, 1, b + 24) && StringAt(s, 1, b + 32)
  {
    hide U, At, Size, I.RowAt, StringAt, RangeAt, IndexAt, LinkAt, Whole, Valid, I.TablesOf, I.SizesOk;
    Counts(s);
    I.LayoutsMatch();
    I.FileLayout();
    FileAt(s, i);
    var l := FILE_LAYOUT;
    StringReads(s, 1, l, i, 0, 112, 0);
    StringReads(s, 1, l, i, 2, 112, 8);
    StringReads(s, 1, l, i, 4, 112, 16);
    StringReads(s, 1, l, i, 6, 112, 24);
    StringReads(s, 1, l, i, 8, 112, 32);
  }

  lemma {:induction false} FileIsInside(s: Sections, i: nat)
    requires I.SizesOk(s) && Valid(I.TablesOf(s)) && Whole(s, 1, 112, i)
    ensures FileInside(s, i)
  {
    hide U, At, Size, I.RowAt, StringAt, RangeAt, IndexAt, LinkAt, Whole, Valid, I.TablesOf, I.SizesOk;
    Counts(s);
    I.LayoutsMatch();
    I.FileLayout();
    FileAt(s, i);
    var l := FILE_LAYOUT;
    FileStringsInside(s, i);
    RangeReads(s, 1, l, i, 13, 112, 64, 3, INDEX_LAYOUT, 4);
    RangeReads(s, 1, l, i, 15, 112, 72, 4, IMPORT_LAYOUT, 40);
    RangeReads(s, 1, l, i, 17, 112, 80, 8, INDEX_LAYOUT, 4);
    RangeReads(s, 1, l, i, 21, 112, 96, 18, EXPORT_LAYOUT, 32);
    RangeReads(s, 1, l, i, 23, 112, 104, 19, HINT_LAYOUT, 32);
  }

  lemma {:induction false} SymbolAt(s: Sections, i: nat)
    requires I.SizesOk(s) && Valid(I.TablesOf(s)) && Whole(s, 2, 72, i)
    ensures I.Whole(SYMBOL_LAYOUT, s[2]) && i < |I.TablesOf(s).syms| && SymbolOk(I.TablesOf(s), i) && i < |s[2]| / Size(SYMBOL_LAYOUT)
    ensures I.TablesOf(s).syms[i] == SymbolOf(I.RowAt(SYMBOL_LAYOUT, s[2], i))
  {
    hide I.RowAt, Size, I.SizesOk;
    Counts(s);
    I.LayoutsMatch();
    CountOf(|s[2]|, 72, i);
    SymbolRead(s);
  }

  lemma {:induction false} SymbolRead(s: Sections)
    requires I.SizesOk(s)
    ensures I.Whole(SYMBOL_LAYOUT, s[2]) && I.TablesOf(s).syms == I.Read(SYMBOL_LAYOUT, s[2], SymbolOf)
  {
    hide I.RowAt, Size, I.Read;
  }

  lemma {:induction false} SymbolIsInside(s: Sections, i: nat)
    requires I.SizesOk(s) && Valid(I.TablesOf(s)) && Whole(s, 2, 72, i)
    ensures SymbolInside(s, i)
  {
    hide U, At, Size, I.RowAt, StringAt, RangeAt, IndexAt, LinkAt, Whole, Valid, I.TablesOf, I.SizesOk;
    Counts(s);
    I.LayoutsMatch();
    I.SymbolLayout();
    SymbolAt(s, i);
    var l := SYMBOL_LAYOUT;
    StringReads(s, 2, l, i, 0, 72, 0);
    StringReads(s, 2, l, i, 2, 72, 8);
    StringReads(s, 2, l, i, 4, 72, 16);
    StringReads(s, 2, l, i, 6, 72, 24);
    StringReads(s, 2, l, i, 20, 72, 64);
    IndexReads(s, 2, l, i, 8, 72, 32, 1, FILE_LAYOUT, 112);
    IndexReads(s, 2, l, i, 15, 72, 48, 2, SYMBOL_LAYOUT, 72);
  }

  lemma {:induction false} ImportAt(s: Sections, i: nat)
    requires I.SizesOk(s) && Valid(I.TablesOf(s)) && Whole(s, 4, 40, i)
    ensures I.Whole(IMPORT_LAYOUT, s[4]) && i < |I.TablesOf(s).imps| && ImportOk(I.TablesOf(s), i) && i < |s[4]| / Size(IMPORT_LAYOUT)
    ensures I.TablesOf(s).imps[i] == ImportOf(I.RowAt(IMPORT_LAYOUT, s[4], i))
  {
    hide I.RowAt, Size, I.SizesOk;
    Counts(s);
    I.LayoutsMatch();
    CountOf(|s[4]|, 40, i);
    ImportRead(s);
  }

  lemma {:induction false} ImportRead(s: Sections)
    requires I.SizesOk(s)
    ensures I.Whole(IMPORT_LAYOUT, s[4]) && I.TablesOf(s).imps == I.Read(IMPORT_LAYOUT, s[4], ImportOf)
  {
    hide I.RowAt, Size, I.Read;
  }

  lemma {:induction false} ImportIsInside(s: Sections, i: nat)
    requires I.SizesOk(s) && Valid(I.TablesOf(s)) && Whole(s, 4, 40, i)
    ensures ImportInside(s, i)
  {
    hide U, At, Size, I.RowAt, StringAt, RangeAt, IndexAt, LinkAt, Whole, Valid, I.TablesOf, I.SizesOk;
    Counts(s);
    I.LayoutsMatch();
    I.ImportLayout();
    ImportAt(s, i);
    var l := IMPORT_LAYOUT;
    StringReads(s, 4, l, i, 0, 40, 0);
    StringReads(s, 4, l, i, 2, 40, 8);
    IndexReads(s, 4, l, i, 4, 40, 16, 1, FILE_LAYOUT, 112);
    RangeReads(s, 4, l, i, 8, 40, 28, 17, PAIR_LAYOUT, 16);
  }

  lemma {:induction false} RefAt(s: Sections, i: nat)
    requires I.SizesOk(s) && Valid(I.TablesOf(s)) && Whole(s, 6, 48, i)
    ensures I.Whole(REF_LAYOUT, s[6]) && i < |I.TablesOf(s).refs| && RefRecOk(I.TablesOf(s), i) && i < |s[6]| / Size(REF_LAYOUT)
    ensures I.TablesOf(s).refs[i] == RefOf(I.RowAt(REF_LAYOUT, s[6], i))
  {
    hide I.RowAt, Size, I.SizesOk;
    Counts(s);
    I.LayoutsMatch();
    CountOf(|s[6]|, 48, i);
    RefRead(s);
  }

  lemma {:induction false} RefRead(s: Sections)
    requires I.SizesOk(s)
    ensures I.Whole(REF_LAYOUT, s[6]) && I.TablesOf(s).refs == I.Read(REF_LAYOUT, s[6], RefOf)
  {
    hide I.RowAt, Size, I.Read;
  }

  lemma {:induction false} RefIsInside(s: Sections, i: nat)
    requires I.SizesOk(s) && Valid(I.TablesOf(s)) && Whole(s, 6, 48, i)
    ensures RefInside(s, i)
  {
    hide U, At, Size, I.RowAt, StringAt, RangeAt, IndexAt, LinkAt, Whole, Valid, I.TablesOf, I.SizesOk;
    Counts(s);
    I.LayoutsMatch();
    I.RefLayout();
    RefAt(s, i);
    var l := REF_LAYOUT;
    StringReads(s, 6, l, i, 0, 48, 0);
    StringReads(s, 6, l, i, 2, 48, 8);
    StringReads(s, 6, l, i, 12, 48, 36);
    IndexReads(s, 6, l, i, 4, 48, 16, 1, FILE_LAYOUT, 112);
    IndexReads(s, 6, l, i, 5, 48, 20, 2, SYMBOL_LAYOUT, 72);
    IndexReads(s, 6, l, i, 14, 48, 44, 6, REF_LAYOUT, 48);
  }

  lemma {:induction false} ExportAt(s: Sections, i: nat)
    requires I.SizesOk(s) && Valid(I.TablesOf(s)) && Whole(s, 18, 32, i)
    ensures I.Whole(EXPORT_LAYOUT, s[18]) && i < |I.TablesOf(s).exps| && ExportOk(I.TablesOf(s), i) && i < |s[18]| / Size(EXPORT_LAYOUT)
    ensures I.TablesOf(s).exps[i] == ExportOf(I.RowAt(EXPORT_LAYOUT, s[18], i))
  {
    hide I.RowAt, Size, I.SizesOk;
    Counts(s);
    I.LayoutsMatch();
    CountOf(|s[18]|, 32, i);
    ExportRead(s);
  }

  lemma {:induction false} ExportRead(s: Sections)
    requires I.SizesOk(s)
    ensures I.Whole(EXPORT_LAYOUT, s[18]) && I.TablesOf(s).exps == I.Read(EXPORT_LAYOUT, s[18], ExportOf)
  {
    hide I.RowAt, Size, I.Read;
  }

  lemma {:induction false} ExportIsInside(s: Sections, i: nat)
    requires I.SizesOk(s) && Valid(I.TablesOf(s)) && Whole(s, 18, 32, i)
    ensures ExportInside(s, i)
  {
    hide U, At, Size, I.RowAt, StringAt, RangeAt, IndexAt, LinkAt, Whole, Valid, I.TablesOf, I.SizesOk;
    Counts(s);
    I.LayoutsMatch();
    I.EightLayout(EXPORT_LAYOUT);
    ExportAt(s, i);
    var l := EXPORT_LAYOUT;
    StringReads(s, 18, l, i, 0, 32, 0);
    StringReads(s, 18, l, i, 2, 32, 8);
    StringReads(s, 18, l, i, 4, 32, 16);
    IndexReads(s, 18, l, i, 6, 32, 24, 1, FILE_LAYOUT, 112);
  }

  lemma {:induction false} HintAt(s: Sections, i: nat)
    requires I.SizesOk(s) && Valid(I.TablesOf(s)) && Whole(s, 19, 32, i)
    ensures I.Whole(HINT_LAYOUT, s[19]) && i < |I.TablesOf(s).hints| && HintOk(I.TablesOf(s), i) && i < |s[19]| / Size(HINT_LAYOUT)
    ensures I.TablesOf(s).hints[i] == HintOf(I.RowAt(HINT_LAYOUT, s[19], i))
  {
    hide I.RowAt, Size, I.SizesOk;
    Counts(s);
    I.LayoutsMatch();
    CountOf(|s[19]|, 32, i);
    HintRead(s);
  }

  lemma {:induction false} HintRead(s: Sections)
    requires I.SizesOk(s)
    ensures I.Whole(HINT_LAYOUT, s[19]) && I.TablesOf(s).hints == I.Read(HINT_LAYOUT, s[19], HintOf)
  {
    hide I.RowAt, Size, I.Read;
  }

  lemma {:induction false} HintIsInside(s: Sections, i: nat)
    requires I.SizesOk(s) && Valid(I.TablesOf(s)) && Whole(s, 19, 32, i)
    ensures HintInside(s, i)
  {
    hide U, At, Size, I.RowAt, StringAt, RangeAt, IndexAt, LinkAt, Whole, Valid, I.TablesOf, I.SizesOk;
    Counts(s);
    I.LayoutsMatch();
    I.EightLayout(HINT_LAYOUT);
    HintAt(s, i);
    var l := HINT_LAYOUT;
    StringReads(s, 19, l, i, 0, 32, 0);
    StringReads(s, 19, l, i, 2, 32, 8);
    IndexReads(s, 19, l, i, 4, 32, 16, 1, FILE_LAYOUT, 112);
    IndexReads(s, 19, l, i, 5, 32, 20, 2, SYMBOL_LAYOUT, 72);
  }

  lemma {:induction false} NamesRead(s: Sections)
    requires I.SizesOk(s)
    ensures I.Whole(PAIR_LAYOUT, s[13]) && I.TablesOf(s).names == I.Read(PAIR_LAYOUT, s[13], PairOf)
  {
    hide I.RowAt, Size, I.Read;
  }

  lemma {:induction false} ImportedNamesRead(s: Sections)
    requires I.SizesOk(s)
    ensures I.Whole(PAIR_LAYOUT, s[17]) && I.TablesOf(s).impNames == I.Read(PAIR_LAYOUT, s[17], PairOf)
  {
    hide I.RowAt, Size, I.Read;
  }

  lemma {:induction false} TermsRead(s: Sections)
    requires I.SizesOk(s)
    ensures I.Whole(DICT_LAYOUT, s[11]) && I.TablesOf(s).terms == I.Read(DICT_LAYOUT, s[11], DictOf)
  {
    hide I.RowAt, Size, I.Read;
  }

  lemma {:induction false} TrigramsRead(s: Sections)
    requires I.SizesOk(s)
    ensures I.Whole(DICT_LAYOUT, s[14]) && I.TablesOf(s).tris == I.Read(DICT_LAYOUT, s[14], DictOf)
  {
    hide I.RowAt, Size, I.Read;
  }

  lemma {:induction false} PostsRead(s: Sections)
    requires I.SizesOk(s)
    ensures I.Whole(POST_LAYOUT, s[12]) && I.TablesOf(s).posts == I.Read(POST_LAYOUT, s[12], PostOf)
  {
    hide I.RowAt, Size, I.Read;
  }

  lemma {:induction false} PairIsInside(s: Sections, sec: nat, i: nat)
    requires sec < SECTIONS && I.Whole(PAIR_LAYOUT, s[sec]) && Whole(s, sec, 16, i)
    requires forall strs: Str :: |strs| == |s[0]| ==> PairsOk(strs, I.Read(PAIR_LAYOUT, s[sec], PairOf))
    ensures PairInside(s, sec, i)
  {
    hide U, At, Size, I.RowAt, StringAt, Whole;
    I.LayoutsMatch();
    I.FourLayout(PAIR_LAYOUT);
    CountOf(|s[sec]|, 16, i) by { UnfoldWhole(s, sec, 16, i); }
    UnfoldWhole(s, sec, 16, i);
    var strs := I.Text(s[0]);
    assert PairOk(strs, I.Read(PAIR_LAYOUT, s[sec], PairOf)[i]);
    StringReads(s, sec, PAIR_LAYOUT, i, 0, 16, 0);
    StringReads(s, sec, PAIR_LAYOUT, i, 2, 16, 8);
  }

  lemma {:induction false} UnfoldWhole(s: Sections, sec: nat, size: nat, i: nat)
    requires sec < SECTIONS
    ensures Whole(s, sec, size, i) <==> (i + 1) * size <= |s[sec]|
  {
  }

  lemma {:induction false} EntryIsInside(s: Sections, sec: nat, i: nat, of: nat, ofLayout: Layout, size: nat)
    requires sec < SECTIONS && I.Whole(DICT_LAYOUT, s[sec]) && Whole(s, sec, 16, i)
    requires of < SECTIONS && I.Whole(ofLayout, s[of]) && Size(ofLayout) == size
    requires DictOk(I.Text(s[0]), I.Read(DICT_LAYOUT, s[sec], DictOf), |s[of]| / size)
    ensures EntryInside(s, sec, i, of, size)
  {
    hide U, At, Size, I.RowAt, StringAt, RangeAt, Whole;
    I.LayoutsMatch();
    I.FourLayout(DICT_LAYOUT);
    UnfoldWhole(s, sec, 16, i);
    CountOf(|s[sec]|, 16, i);
    assert EntryOk(I.Text(s[0]), I.Read(DICT_LAYOUT, s[sec], DictOf)[i], |s[of]| / size);
    StringReads(s, sec, DICT_LAYOUT, i, 0, 16, 0);
    RangeReads(s, sec, DICT_LAYOUT, i, 2, 16, 8, of, ofLayout, size);
  }

  /** An index list whose entries are below the number of records. */
  lemma {:induction false} ListIsInside(s: Sections, sec: nat, list: seq<nat>, of: nat, ofLayout: Layout, size: nat)
    requires sec < SECTIONS && I.Whole(INDEX_LAYOUT, s[sec]) && list == I.Read(INDEX_LAYOUT, s[sec], I.IndexOf)
    requires of < SECTIONS && I.Whole(ofLayout, s[of]) && Size(ofLayout) == size && AllBelow(list, |s[of]| / size)
    ensures Listed(s, sec, of, size)
  {
    hide U, At, Size, I.RowAt, IndexAt, LinkAt, Whole;
    I.LayoutsMatch();
    I.SmallLayouts();
    forall i: nat | Whole(s, sec, 4, i) ensures IndexAt(s, sec, i * 4, of, size) {
      UnfoldWhole(s, sec, 4, i);
      CountOf(|s[sec]|, 4, i);
      IndexReads(s, sec, INDEX_LAYOUT, i, 0, 4, 0, of, ofLayout, size);
    }
  }

  lemma {:induction false} PostIsInside(s: Sections, i: nat)
    requires I.SizesOk(s) && Valid(I.TablesOf(s)) && Whole(s, 12, 8, i)
    ensures IndexAt(s, 12, i * 8, 2, 72)
  {
    hide U, At, Size, I.RowAt, IndexAt, LinkAt, Whole, Valid, I.TablesOf, I.SizesOk, I.Read;
    Counts(s);
    I.LayoutsMatch();
    I.SmallLayouts();
    UnfoldWhole(s, 12, 8, i);
    CountOf(|s[12]|, 8, i);
    PostsRead(s);
    PostBelow(I.TablesOf(s), i);
    assert I.TablesOf(s).posts[i] == PostOf(I.RowAt(POST_LAYOUT, s[12], i)) by { PostAt(s, i); }
    IndexReads(s, 12, POST_LAYOUT, i, 0, 8, 0, 2, SYMBOL_LAYOUT, 72);
  }

  lemma {:induction false} PostAt(s: Sections, i: nat)
    requires I.Whole(POST_LAYOUT, s[12]) && i < |s[12]| / Size(POST_LAYOUT)
    ensures I.Read(POST_LAYOUT, s[12], PostOf)[i] == PostOf(I.RowAt(POST_LAYOUT, s[12], i))
  {
    hide I.RowAt, Size;
  }

  lemma {:induction false} PostBelow(t: Tables, i: nat)
    requires Valid(t) && i < |t.posts|
    ensures t.posts[i].sym < |t.syms|
  {
  }

  lemma {:induction false} SearchIsInside(s: Sections)
    requires I.SizesOk(s) && Valid(I.TablesOf(s))
    ensures forall i: nat :: Whole(s, 13, 16, i) ==> PairInside(s, 13, i)
    ensures forall i: nat :: Whole(s, 17, 16, i) ==> PairInside(s, 17, i)
    ensures forall i: nat :: Whole(s, 11, 16, i) ==> EntryInside(s, 11, i, 12, 8)
    ensures forall i: nat :: Whole(s, 14, 16, i) ==> EntryInside(s, 14, i, 15, 4)
    ensures forall i: nat :: Whole(s, 12, 8, i) ==> IndexAt(s, 12, i * 8, 2, 72)
  {
    hide U, At, Size, I.RowAt, IndexAt, Whole, I.TablesOf, I.SizesOk, I.Read, PairInside, EntryInside, DictOk;
    hide FileOk, SymbolOk, ImportOk, RefRecOk, ExportOk, HintOk, PathsAscend;
    Counts(s);
    I.LayoutsMatch();
    NamesRead(s);
    ImportedNamesRead(s);
    TermsRead(s);
    TrigramsRead(s);
    StringsRead(s);
    forall i: nat | Whole(s, 13, 16, i) ensures PairInside(s, 13, i) { PairIsInside(s, 13, i); }
    forall i: nat | Whole(s, 17, 16, i) ensures PairInside(s, 17, i) { PairIsInside(s, 17, i); }
    forall i: nat | Whole(s, 11, 16, i) ensures EntryInside(s, 11, i, 12, 8) { EntryIsInside(s, 11, i, 12, POST_LAYOUT, 8); }
    forall i: nat | Whole(s, 14, 16, i) ensures EntryInside(s, 14, i, 15, 4) { EntryIsInside(s, 14, i, 15, INDEX_LAYOUT, 4); }
    forall i: nat | Whole(s, 12, 8, i) ensures IndexAt(s, 12, i * 8, 2, 72) { PostIsInside(s, i); }
  }

  lemma {:induction false} StringsRead(s: Sections)
    requires I.SizesOk(s)
    ensures I.TablesOf(s).strs == I.Text(s[0])
  {
    hide I.Read, I.RowAt, I.Text;
  }

  lemma {:induction false} ListsRead(s: Sections)
    requires I.SizesOk(s)
    ensures I.Whole(INDEX_LAYOUT, s[3]) && I.TablesOf(s).symByFile == I.Read(INDEX_LAYOUT, s[3], I.IndexOf)
    ensures I.Whole(INDEX_LAYOUT, s[5]) && I.TablesOf(s).impByPath == I.Read(INDEX_LAYOUT, s[5], I.IndexOf)
    ensures I.Whole(INDEX_LAYOUT, s[7]) && I.TablesOf(s).refsByEnclosing == I.Read(INDEX_LAYOUT, s[7], I.IndexOf)
    ensures I.Whole(INDEX_LAYOUT, s[8]) && I.TablesOf(s).refsByFile == I.Read(INDEX_LAYOUT, s[8], I.IndexOf)
    ensures I.Whole(INDEX_LAYOUT, s[15]) && I.TablesOf(s).triPost == I.Read(INDEX_LAYOUT, s[15], I.IndexOf)
    ensures I.Whole(INDEX_LAYOUT, s[16]) && I.TablesOf(s).pkgFiles == I.Read(INDEX_LAYOUT, s[16], I.IndexOf)
  {
    hide I.RowAt, Size, I.Read;
  }

  lemma {:induction false} ListsAreInside(s: Sections)
    requires I.SizesOk(s) && Valid(I.TablesOf(s))
    ensures Listed(s, 3, 2, 72) && Listed(s, 5, 4, 40) && Listed(s, 7, 6, 48) && Listed(s, 8, 6, 48) && Listed(s, 15, 13, 16) && Listed(s, 16, 1, 112)
    ensures |s[9]| == 16 && forall i: nat :: Whole(s, 2, 72, i) ==> Whole(s, 10, 4, i)
  {
    hide U, At, Size, I.RowAt, IndexAt, I.TablesOf, I.SizesOk, I.Read, Listed, DictOk, AllBelow, PairsOk;
    hide FileOk, SymbolOk, ImportOk, RefRecOk, ExportOk, HintOk, PathsAscend;
    var t := I.TablesOf(s);
    Counts(s);
    I.LayoutsMatch();
    ListsRead(s);
    ListIsInside(s, 3, t.symByFile, 2, SYMBOL_LAYOUT, 72);
    ListIsInside(s, 5, t.impByPath, 4, IMPORT_LAYOUT, 40);
    ListIsInside(s, 7, t.refsByEnclosing, 6, REF_LAYOUT, 48);
    ListIsInside(s, 8, t.refsByFile, 6, REF_LAYOUT, 48);
    ListIsInside(s, 15, t.triPost, 13, PAIR_LAYOUT, 16);
    ListIsInside(s, 16, t.pkgFiles, 1, FILE_LAYOUT, 112);
    forall i: nat | Whole(s, 2, 72, i) ensures Whole(s, 10, 4, i) {
      CountOf(|s[2]|, 72, i);
      CountOf(|s[10]|, 4, i);
    }
  }

  lemma {:induction false} RecordsAreInside(s: Sections)
    requires I.SizesOk(s) && Valid(I.TablesOf(s))
    ensures forall i: nat :: Whole(s, 1, 112, i) ==> FileInside(s, i)
    ensures forall i: nat :: Whole(s, 2, 72, i) ==> SymbolInside(s, i)
    ensures forall i: nat :: Whole(s, 4, 40, i) ==> ImportInside(s, i)
    ensures forall i: nat :: Whole(s, 6, 48, i) ==> RefInside(s, i)
    ensures forall i: nat :: Whole(s, 18, 32, i) ==> ExportInside(s, i)
    ensures forall i: nat :: Whole(s, 19, 32, i) ==> HintInside(s, i)
  {
    hide Whole, FileInside, SymbolInside, ImportInside, RefInside, ExportInside, HintInside, I.SizesOk, I.TablesOf, Valid;
    forall i: nat | Whole(s, 1, 112, i) ensures FileInside(s, i) { FileIsInside(s, i); }
    forall i: nat | Whole(s, 2, 72, i) ensures SymbolInside(s, i) { SymbolIsInside(s, i); }
    forall i: nat | Whole(s, 4, 40, i) ensures ImportInside(s, i) { ImportIsInside(s, i); }
    forall i: nat | Whole(s, 6, 48, i) ensures RefInside(s, i) { RefIsInside(s, i); }
    forall i: nat | Whole(s, 18, 32, i) ensures ExportInside(s, i) { ExportIsInside(s, i); }
    forall i: nat | Whole(s, 19, 32, i) ensures HintInside(s, i) { HintIsInside(s, i); }
  }

  /**
   In every accepted image, by its bytes: each record's strings, ranges and links lie inside their sections, each entry of an
   index list is a record, each posting's symbol is a symbol, and there is a length for each symbol.
   */
  lemma {:induction false} AcceptedIsInside(data: seq<byte>, hash: Hash)
    requires I.Parsed(data, hash).Some?
    ensures Opened(data, hash).Some? && |Opened(data, hash).value.sections| == SECTIONS
    ensures Inside(Opened(data, hash).value.sections)
  {
    hide Opened, I.SizesOk, I.TablesOf, Valid, FileInside, SymbolInside, ImportInside, RefInside, ExportInside, HintInside, Listed, Whole;
    hide PairInside, EntryInside, IndexAt;
    var s := Opened(data, hash).value.sections;
    RecordsAreInside(s);
    SearchIsInside(s);
    ListsAreInside(s);
  }

  // ---------------------------------------------------------------------------------------------
  // Chains of indexes

  /** A range of an index list, followed entry by entry, ends on records. */
  lemma {:induction false} ChainEnds(s: Sections, sec: nat, at: nat, list: nat, of: nat, size: nat, k: nat)
    requires sec < SECTIONS && list < SECTIONS && of < SECTIONS && RangeAt(s, sec, at, list, 4) && Listed(s, list, of, size)
    requires k < U(s[sec], at + 4, 4)
    ensures IndexAt(s, list, (U(s[sec], at, 4) + k) * 4, of, size)
  {
    hide U, IndexAt;
    assert Whole(s, list, 4, U(s[sec], at, 4) + k);
  }

  /** What the accessors of file i read for its k-th symbol, import, reference, export and hint. */
  predicate FileChains(s: Sections, i: nat, k: nat)
    requires FileInside(s, i)
  {
    && (k < U(s[1], i * 112 + 68, 4) ==> IndexAt(s, 3, (U(s[1], i * 112 + 64, 4) + k) * 4, 2, 72))
    && (k < U(s[1], i * 112 + 76, 4) ==> ImportInside(s, U(s[1], i * 112 + 72, 4) + k))
    && (k < U(s[1], i * 112 + 84, 4) ==> IndexAt(s, 8, (U(s[1], i * 112 + 80, 4) + k) * 4, 6, 48))
    && (k < U(s[1], i * 112 + 100, 4) ==> ExportInside(s, U(s[1], i * 112 + 96, 4) + k))
    && (k < U(s[1], i * 112 + 108, 4) ==> HintInside(s, U(s[1], i * 112 + 104, 4) + k))
  }

  /** A file's symbols and references, its imports, exports and hints are whole records. */
  lemma {:induction false} FileChainsEnd(data: seq<byte>, hash: Hash, i: nat, k: nat)
    requires I.Parsed(data, hash).Some?
    ensures |Opened(data, hash).value.sections| == SECTIONS
    ensures var s := Opened(data, hash).value.sections; Whole(s, 1, 112, i) ==> FileInside(s, i) && FileChains(s, i, k)
  {
    hide U, Listed, ImportInside, ExportInside, HintInside, PairInside, IndexAt, StringAt, Opened, I.SizesOk, I.TablesOf, Valid;
    AcceptedIsInside(data, hash);
    var s := Opened(data, hash).value.sections;
    if Whole(s, 1, 112, i) {
      assert FileInside(s, i);
      if k < U(s[1], i * 112 + 68, 4) { ChainEnds(s, 1, i * 112 + 64, 3, 2, 72, k); }
      if k < U(s[1], i * 112 + 84, 4) { ChainEnds(s, 1, i * 112 + 80, 8, 6, 48, k); }
      assert k < U(s[1], i * 112 + 76, 4) ==> Whole(s, 4, 40, U(s[1], i * 112 + 72, 4) + k);
      assert k < U(s[1], i * 112 + 100, 4) ==> Whole(s, 18, 32, U(s[1], i * 112 + 96, 4) + k);
      assert k < U(s[1], i * 112 + 108, 4) ==> Whole(s, 19, 32, U(s[1], i * 112 + 104, 4) + k);
    }
  }

  /** An import's listed names are whole records, so are a term's postings' symbols and a trigram's names. */
  predicate SearchChains(s: Sections, i: nat, k: nat)
  {
    && (Whole(s, 4, 40, i) ==> ImportInside(s, i) && ImportChain(s, i, k))
    && (Whole(s, 11, 16, i) ==> EntryInside(s, 11, i, 12, 8) && TermChain(s, i, k))
    && (Whole(s, 14, 16, i) ==> EntryInside(s, 14, i, 15, 4) && TrigramChain(s, i, k))
  }

  predicate ImportChain(s: Sections, i: nat, k: nat)
    requires ImportInside(s, i)
  {
    k < U(s[4], i * 40 + 32, 4) ==> PairInside(s, 17, U(s[4], i * 40 + 28, 4) + k)
  }

  predicate TermChain(s: Sections, i: nat, k: nat)
    requires EntryInside(s, 11, i, 12, 8)
  {
    k < U(s[11], i * 16 + 12, 4) ==> IndexAt(s, 12, (U(s[11], i * 16 + 8, 4) + k) * 8, 2, 72)
  }

  predicate TrigramChain(s: Sections, i: nat, k: nat)
    requires EntryInside(s, 14, i, 15, 4)
  {
    k < U(s[14], i * 16 + 12, 4) ==> IndexAt(s, 15, (U(s[14], i * 16 + 8, 4) + k) * 4, 13, 16)
  }

  lemma {:induction false} SearchChainsEnd(data: seq<byte>, hash: Hash, i: nat, k: nat)
    requires I.Parsed(data, hash).Some?
    ensures |Opened(data, hash).value.sections| == SECTIONS && SearchChains(Opened(data, hash).value.sections, i, k)
  {
    hide U, Listed, PairInside, IndexAt, StringAt, Opened, I.SizesOk, I.TablesOf, Valid, FileInside, SymbolInside, RefInside, ExportInside, HintInside;
    AcceptedIsInside(data, hash);
    var s := Opened(data, hash).value.sections;
    if Whole(s, 4, 40, i) {
      assert ImportInside(s, i);
      assert k < U(s[4], i * 40 + 32, 4) ==> Whole(s, 17, 16, U(s[4], i * 40 + 28, 4) + k);
    }
    if Whole(s, 11, 16, i) {
      assert EntryInside(s, 11, i, 12, 8);
      assert k < U(s[11], i * 16 + 12, 4) ==> Whole(s, 12, 8, U(s[11], i * 16 + 8, 4) + k);
    }
    if Whole(s, 14, 16, i) {
      assert EntryInside(s, 14, i, 15, 4);
      if k < U(s[14], i * 16 + 12, 4) { ChainEnds(s, 14, i * 16 + 8, 15, 13, 16, k); }
    }
  }
}
