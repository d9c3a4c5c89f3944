/**
 Fixed-width records of a segment section: their field layouts in bytes, and that reading a section gives back the
 records it was written from.
 */
module SegmentRecords {
  import opened SegmentBytes

  /** Strings are strings of bytes. */
  type octet = c: char | c < 256 as char
  type Str = seq<octet>

  /** A string's place in the string section. */
  datatype StrRef = StrRef(off: nat, n: nat)

  /** A missing symbol or reference index. */
  const NONE32: nat := 0xFFFF_FFFF

  datatype FileRec = FileRec(path: StrRef, package: StrRef, pkgName: StrRef, lang: StrRef, parseErr: StrRef,
                             hash: nat, size: nat, mtime: nat, symOff: nat, symN: nat, impOff: nat, impN: nat,
                             refOff: nat, refN: nat, flags: nat, expOff: nat, expN: nat, hintOff: nat, hintN: nat)

  datatype SymRec = SymRec(name: StrRef, receiver: StrRef, signature: StrRef, doc: StrRef, file: nat, line: nat, endLine: nat,
                           kind: nat, flags: nat, visibility: nat, container: nat, modifiers: nat, minArgs: nat, maxArgs: nat,
                           paramList: StrRef)

  datatype RefRec = RefRec(name: StrRef, qualifier: StrRef, file: nat, enclosing: nat, line: nat, col: nat, qualKind: nat,
                           kind: nat, args: nat, argTypes: StrRef, lambda: nat)

  datatype HintRec = HintRec(name: StrRef, kind: StrRef, file: nat, scope: nat, line: nat)

  datatype ImportRec = ImportRec(path: StrRef, name: StrRef, file: nat, line: nat, kind: nat, namesOff: nat, namesN: nat)

  datatype ExportRec = ExportRec(name: StrRef, source: StrRef, sourceName: StrRef, file: nat, line: nat)

  /** Two strings: an imported name and its alias, or a declared name and its lower-case form. */
  datatype PairRec = PairRec(first: StrRef, second: StrRef)

  /** A dictionary entry: a key and its range of a list. */
  datatype DictRec = DictRec(key: StrRef, off: nat, n: nat)

  /** A search posting: a symbol, and the bits of the term's weight there. */
  datatype PostRec = PostRec(sym: nat, weight: nat)

  /** Field widths in bytes, in order; unused bytes are fields too. */
  type Layout = seq<nat>

  const FILE_LAYOUT: Layout := [4, 4, 4, 4, 4, 4, 4, 4, 4, 4, 8, 8, 8, 4, 4, 4, 4, 4, 4, 4, 4, 4, 4, 4, 4]
  const SYMBOL_LAYOUT: Layout := [4, 4, 4, 4, 4, 4, 4, 4, 4, 4, 4, 1, 1, 1, 1, 4, 4, 1, 1, 6, 4, 4]
  const REF_LAYOUT: Layout := [4, 4, 4, 4, 4, 4, 4, 2, 1, 1, 1, 3, 4, 4, 4]
  const HINT_LAYOUT: Layout := [4, 4, 4, 4, 4, 4, 4, 4]
  const IMPORT_LAYOUT: Layout := [4, 4, 4, 4, 4, 4, 1, 3, 4, 4, 4]
  const EXPORT_LAYOUT: Layout := [4, 4, 4, 4, 4, 4, 4, 4]
  const PAIR_LAYOUT: Layout := [4, 4, 4, 4]
  const DICT_LAYOUT: Layout := [4, 4, 4, 4]
  const POST_LAYOUT: Layout := [4, 4]
  const STATS_LAYOUT: Layout := [8, 8]
  const INDEX_LAYOUT: Layout := [4]

  function FileFields(r: FileRec): seq<nat>
  {
    [r.path.off, r.path.n, r.package.off, r.package.n, r.pkgName.off, r.pkgName.n, r.lang.off, r.lang.n, r.parseErr.off, r.parseErr.n,
     r.hash, r.size, r.mtime, r.symOff, r.symN, r.impOff, r.impN, r.refOff, r.refN, r.flags, 0, r.expOff, r.expN, r.hintOff, r.hintN]
  }

  function FileOf(v: seq<nat>): FileRec
    requires |v| == 25
  {
    FileRec(StrRef(v[0], v[1]), StrRef(v[2], v[3]), StrRef(v[4], v[5]), StrRef(v[6], v[7]), StrRef(v[8], v[9]),
            v[10], v[11], v[12], v[13], v[14], v[15], v[16], v[17], v[18], v[19], v[21], v[22], v[23], v[24])
  }

  function SymbolFields(r: SymRec): seq<nat>
  {
    [r.name.off, r.name.n, r.receiver.off, r.receiver.n, r.signature.off, r.signature.n, r.doc.off, r.doc.n, r.file, r.line, r.endLine,
     r.kind, r.flags, r.visibility, 0, r.container, r.modifiers, r.minArgs, r.maxArgs, 0, r.paramList.off, r.paramList.n]
  }

  function SymbolOf(v: seq<nat>): SymRec
    requires |v| == 22
  {
    SymRec(StrRef(v[0], v[1]), StrRef(v[2], v[3]), StrRef(v[4], v[5]), StrRef(v[6], v[7]), v[8], v[9], v[10],
           v[11], v[12], v[13], v[15], v[16], v[17], v[18], StrRef(v[20], v[21]))
  }

  function RefFields(r: RefRec): seq<nat>
  {
    [r.name.off, r.name.n, r.qualifier.off, r.qualifier.n, r.file, r.enclosing, r.line, r.col, r.qualKind, r.kind, r.args, 0,
     r.argTypes.off, r.argTypes.n, r.lambda]
  }

  function RefOf(v: seq<nat>): RefRec
    requires |v| == 15
  {
    RefRec(StrRef(v[0], v[1]), StrRef(v[2], v[3]), v[4], v[5], v[6], v[7], v[8], v[9], v[10], StrRef(v[12], v[13]), v[14])
  }

  function HintFields(r: HintRec): seq<nat>
  {
    [r.name.off, r.name.n, r.kind.off, r.kind.n, r.file, r.scope, r.line, 0]
  }

  function HintOf(v: seq<nat>): HintRec
    requires |v| == 8
  {
    HintRec(StrRef(v[0], v[1]), StrRef(v[2], v[3]), v[4], v[5], v[6])
  }

  function ImportFields(r: ImportRec): seq<nat>
  {
    [r.path.off, r.path.n, r.name.off, r.name.n, r.file, r.line, r.kind, 0, r.namesOff, r.namesN, 0]
  }

  function ImportOf(v: seq<nat>): ImportRec
    requires |v| == 11
  {
    ImportRec(StrRef(v[0], v[1]), StrRef(v[2], v[3]), v[4], v[5], v[6], v[8], v[9])
  }

  function ExportFields(r: ExportRec): seq<nat>
  {
    [r.name.off, r.name.n, r.source.off, r.source.n, r.sourceName.off, r.sourceName.n, r.file, r.line]
  }

  function ExportOf(v: seq<nat>): ExportRec
    requires |v| == 8
  {
    ExportRec(StrRef(v[0], v[1]), StrRef(v[2], v[3]), StrRef(v[4], v[5]), v[6], v[7])
  }

  function PairFields(r: PairRec): seq<nat>
  {
    [r.first.off, r.first.n, r.second.off, r.second.n]
  }

  function PairOf(v: seq<nat>): PairRec
    requires |v| == 4
  {
    PairRec(StrRef(v[0], v[1]), StrRef(v[2], v[3]))
  }

  function DictFields(r: DictRec): seq<nat>
  {
    [r.key.off, r.key.n, r.off, r.n]
  }

  function DictOf(v: seq<nat>): DictRec
    requires |v| == 4
  {
    DictRec(StrRef(v[0], v[1]), v[2], v[3])
  }

  function PostFields(r: PostRec): seq<nat>
  {
    [r.sym, r.weight]
  }

  function PostOf(v: seq<nat>): PostRec
    requires |v| == 2
  {
    PostRec(v[0], v[1])
  }

  // ---------------------------------------------------------------------------------------------
  // Packing one record

  function Parts(layout: Layout, v: seq<nat>): (p: seq<seq<byte>>)
    requires |v| == |layout|
    ensures |p| == |layout| && forall i :: 0 <= i < |p| ==> |p[i]| == layout[i]
  {
    seq(|layout|, i requires 0 <= i < |layout| => LE(v[i], layout[i]))
  }

  /** Where field i starts; for i one past the last, the record's size. */
  function At(layout: Layout, i: nat): nat
    requires i <= |layout|
  {
    if i == 0 then 0 else At(layout, i - 1) + layout[i - 1]
  }

  function Size(layout: Layout): nat
  {
    At(layout, |layout|)
  }

  lemma {:induction false} PartsStart(layout: Layout, v: seq<nat>, i: nat)
    requires |v| == |layout| && i <= |layout|
    ensures Start(Parts(layout, v), i) == At(layout, i)
  {
    if i > 0 { PartsStart(layout, v, i - 1); }
  }

  function Packed(layout: Layout, v: seq<nat>): (s: seq<byte>)
    requires |v| == |layout|
    ensures |s| == Size(layout)
  {
    PartsStart(layout, v, |layout|);
    Flat(Parts(layout, v))
  }

  lemma {:induction false} AtGrows(layout: Layout, i: nat, j: nat)
    requires i <= j <= |layout|
    ensures At(layout, i) <= At(layout, j)
  {
    if i < j { AtGrows(layout, i, j - 1); }
  }

  /** Every field lies inside the record. */
  lemma {:induction false} FieldInside(layout: Layout, i: nat)
    requires i < |layout|
    ensures At(layout, i) + layout[i] <= Size(layout)
  {
    AtGrows(layout, i + 1, |layout|);
  }

  function Field(layout: Layout, s: seq<byte>, i: nat): nat
    requires |s| == Size(layout) && i < |layout|
  {
    FieldInside(layout, i);
    U(s, At(layout, i), layout[i])
  }

  function Unpacked(layout: Layout, s: seq<byte>): (v: seq<nat>)
    requires |s| == Size(layout)
    ensures |v| == |layout|
  {
    seq(|layout|, i requires 0 <= i < |layout| => Field(layout, s, i))
  }

  /** Every field's value fits its width. */
  ghost predicate FitsLayout(layout: Layout, v: seq<nat>)
  {
    |v| == |layout| && forall i :: 0 <= i < |v| ==> v[i] < Pow256(layout[i])
  }

  lemma {:induction false} UnpackedOfPacked(layout: Layout, v: seq<nat>)
    requires FitsLayout(layout, v)
    ensures Unpacked(layout, Packed(layout, v)) == v
  {
    forall i | 0 <= i < |v| ensures Field(layout, Packed(layout, v), i) == v[i] {
      FlatReads(Parts(layout, v), i, v[i], layout[i]);
      PartsStart(layout, v, i);
      FieldInside(layout, i);
    }
  }

  // ---------------------------------------------------------------------------------------------
  // Sections of records

  function Section(layout: Layout, rows: seq<seq<nat>>): (s: seq<byte>)
    requires forall i :: 0 <= i < |rows| ==> |rows[i]| == |layout|
    ensures |s| == |rows| * Size(layout)
  {
    if rows == [] then []
    else Section(layout, rows[..|rows| - 1]) + Packed(layout, rows[|rows| - 1])
  }

  /** Row i of a section. */
  function Row(layout: Layout, s: seq<byte>, i: nat): seq<nat>
    requires (i + 1) * Size(layout) <= |s|
  {
    RowBounds(i, Size(layout));
    Unpacked(layout, s[i * Size(layout)..(i + 1) * Size(layout)])
  }

  lemma {:induction false} RowBounds(i: nat, size: nat)
    ensures (i + 1) * size == i * size + size && i * size >= 0
  {
  }

  lemma {:induction false} RowInside(i: nat, n: nat, size: nat)
    requires i < n
    ensures (i + 1) * size <= n * size
  {
  }

  lemma {:induction false} RowOfSection(layout: Layout, rows: seq<seq<nat>>, i: nat)
    requires (forall k :: 0 <= k < |rows| ==> |rows[k]| == |layout| && FitsLayout(layout, rows[k])) && i < |rows|
    ensures (i + 1) * Size(layout) <= |Section(layout, rows)| && Row(layout, Section(layout, rows), i) == rows[i]
  {
    hide Packed, Unpacked, Size;
    var n := |rows| - 1;
    var size := Size(layout);
    var s := Section(layout, rows);
    var front := Section(layout, rows[..n]);
    RowInside(i, |rows|, size);
    RowBounds(i, size);
    UnpackedOfPacked(layout, rows[i]);
    if i < n {
      RowInside(i, n, size);
      RowOfSection(layout, rows[..n], i);
      assert s[i * size..(i + 1) * size] == front[i * size..(i + 1) * size];
    } else {
      assert s[n * size..(n + 1) * size] == Packed(layout, rows[n]);
    }
  }
}
