/**
 The record tables of a segment: what encoding files writes, what a reader checks before it relies on them, and that
 decoding a file gives back its facts up to the documented re-ordering.
 */
module SegmentTables {
  import opened Common
  import opened Order
  import opened SegmentRecords
  import opened Sorting

  const KINDS: nat := 26
  const VISIBILITIES: nat := 6
  const REF_KINDS: nat := 8
  const IMPORT_KINDS: nat := 7
  const VAR_ARGS: int := -1
  const MAX_ARITY: int := 254
  const NO_CALLER: int := -1
  const TWO32: int := 0x1_0000_0000

  // ---------------------------------------------------------------------------------------------
  // Facts

  datatype Arity = Arity(min: int, max: int, known: bool)

  const UNKNOWN: Arity := Arity(0, 0, false)

  /** A declaration; `container` is one more than the index of the enclosing symbol, 0 at top level. Kinds are indexes. */
  datatype Symbol = Symbol(name: Str, kind: nat, receiver: Str, signature: Str, doc: Str, line: int, endLine: int,
                           exported: bool, container: int, visibility: nat, modifiers: nat, params: Arity, paramList: Str)

  /** A reference; `enclosing` indexes the symbols, `lambda` is one more than an index of the references. */
  datatype Ref = Ref(kind: nat, enclosing: int, name: Str, qualifier: Str, qualKind: nat, line: int, col: int,
                     args: nat, argTypes: Str, lambda: int)

  datatype ImportedName = ImportedName(name: Str, alias: Str)

  datatype Import = Import(path: Str, name: Str, line: int, kind: nat, names: seq<ImportedName>)

  datatype Export = Export(name: Str, source: Str, sourceName: Str, line: int)

  datatype Hint = Hint(scope: int, name: Str, kind: Str, line: int)

  datatype File = File(path: Str, lang: Str, package: Str, pkgName: Str, hash: nat, size: int, mtime: int,
                       parseErr: Str, deleted: bool, generated: bool, vendored: bool, test: bool,
                       symbols: seq<Symbol>, imports: seq<Import>, refs: seq<Ref>, exports: seq<Export>, hints: seq<Hint>)

  /** The tables, in section order; `docs` and `total` are the two search statistics. */
  datatype Tables = Tables(strs: Str, files: seq<FileRec>, syms: seq<SymRec>, symByFile: seq<nat>, imps: seq<ImportRec>,
                           impByPath: seq<nat>, refs: seq<RefRec>, refsByEnclosing: seq<nat>, refsByFile: seq<nat>,
                           docs: nat, total: nat, docLen: seq<nat>, terms: seq<DictRec>, posts: seq<PostRec>,
                           names: seq<PairRec>, tris: seq<DictRec>, triPost: seq<nat>, pkgFiles: seq<nat>,
                           impNames: seq<PairRec>, exps: seq<ExportRec>, hints: seq<HintRec>)

  // ---------------------------------------------------------------------------------------------
  // Reading

  predicate RefOk(strs: Str, r: StrRef)
  {
    r.off + r.n <= |strs|
  }

  function View(strs: Str, r: StrRef): Str
    requires RefOk(strs, r)
  {
    if r.n == 0 then [] else strs[r.off..r.off + r.n]
  }

  predicate FileOk(t: Tables, i: nat)
    requires i < |t.files|
  {
    var r := t.files[i];
    && RefOk(t.strs, r.path) && RefOk(t.strs, r.package) && RefOk(t.strs, r.pkgName) && RefOk(t.strs, r.lang) && RefOk(t.strs, r.parseErr)
    && r.symOff + r.symN <= |t.symByFile| && r.impOff + r.impN <= |t.imps| && r.refOff + r.refN <= |t.refsByFile|
    && r.expOff + r.expN <= |t.exps| && r.hintOff + r.hintN <= |t.hints|
  }

  predicate SymbolOk(t: Tables, i: nat)
    requires i < |t.syms|
  {
    var r := t.syms[i];
    && RefOk(t.strs, r.name) && RefOk(t.strs, r.receiver) && RefOk(t.strs, r.signature) && RefOk(t.strs, r.doc) && RefOk(t.strs, r.paramList)
    && r.file < |t.files| && r.kind < KINDS && r.visibility < VISIBILITIES
    && (HasArity(r) ==> r.minArgs <= MAX_ARITY && (r.maxArgs == 0xFF || r.minArgs <= r.maxArgs))
    && (r.container != NONE32 ==> r.container < |t.syms| && r.container != i && t.syms[r.container].file == r.file)
  }

  predicate ImportOk(t: Tables, i: nat)
    requires i < |t.imps|
  {
    var r := t.imps[i];
    && RefOk(t.strs, r.path) && RefOk(t.strs, r.name) && r.file < |t.files| && r.kind < IMPORT_KINDS
    && r.namesOff + r.namesN <= |t.impNames|
  }

  predicate PairOk(strs: Str, r: PairRec)
  {
    RefOk(strs, r.first) && RefOk(strs, r.second)
  }

  predicate PairsOk(strs: Str, s: seq<PairRec>)
  {
    forall i :: 0 <= i < |s| ==> PairOk(strs, s[i])
  }

  predicate RefRecOk(t: Tables, i: nat)
    requires i < |t.refs|
  {
    var r := t.refs[i];
    && RefOk(t.strs, r.name) && RefOk(t.strs, r.qualifier) && RefOk(t.strs, r.argTypes) && r.file < |t.files| && r.kind < REF_KINDS
    && (r.enclosing != NONE32 ==> r.enclosing < |t.syms| && t.syms[r.enclosing].file == r.file)
    && (r.lambda != NONE32 ==> r.lambda < |t.refs| && r.lambda != i && t.refs[r.lambda].file == r.file)
  }

  predicate ExportOk(t: Tables, i: nat)
    requires i < |t.exps|
  {
    var r := t.exps[i];
    RefOk(t.strs, r.name) && RefOk(t.strs, r.source) && RefOk(t.strs, r.sourceName) && r.file < |t.files|
  }

  predicate HintOk(t: Tables, i: nat)
    requires i < |t.hints|
  {
    var r := t.hints[i];
    && RefOk(t.strs, r.name) && RefOk(t.strs, r.kind) && r.file < |t.files|
    && (r.scope != NONE32 ==> r.scope < |t.syms| && t.syms[r.scope].file == r.file)
  }

  predicate AllBelow(s: seq<nat>, limit: nat)
  {
    forall i :: 0 <= i < |s| ==> s[i] < limit
  }

  predicate EntryOk(strs: Str, r: DictRec, limit: nat)
  {
    RefOk(strs, r.key) && r.off + r.n <= limit
  }

  /** Keys strictly ascend and every range lies in the list. */
  predicate DictOk(strs: Str, dict: seq<DictRec>, limit: nat)
  {
    && (forall i :: 0 <= i < |dict| ==> EntryOk(strs, dict[i], limit))
    && (forall i, j :: 0 <= i < j < |dict| && EntryOk(strs, dict[i], limit) && EntryOk(strs, dict[j], limit) ==>
          Less(View(strs, dict[i].key), View(strs, dict[j].key)))
  }

  /** validateSearch. */
  predicate SearchOk(t: Tables)
  {
    && |t.docLen| == |t.syms| && |t.pkgFiles| == |t.files|
    && DictOk(t.strs, t.terms, |t.posts|) && DictOk(t.strs, t.tris, |t.triPost|)
    && (forall i :: 0 <= i < |t.posts| ==> t.posts[i].sym < |t.syms|)
    && PairsOk(t.strs, t.names) && AllBelow(t.triPost, |t.names|) && AllBelow(t.pkgFiles, |t.files|)
  }

  /** Paths strictly ascend. */
  predicate PathsAscend(t: Tables)
  {
    forall i: nat, j: nat :: i < j < |t.files| && FileOk(t, i) && FileOk(t, j) ==>
      Less(View(t.strs, t.files[i].path), View(t.strs, t.files[j].path))
  }

  /** validate: what every accessor relies on. */
  predicate Valid(t: Tables)
  {
    && (forall i: nat :: i < |t.files| ==> FileOk(t, i)) && PathsAscend(t)
    && (forall i: nat :: i < |t.syms| ==> SymbolOk(t, i))
    && SearchOk(t)
    && (forall i: nat :: i < |t.imps| ==> ImportOk(t, i)) && PairsOk(t.strs, t.impNames)
    && (forall i: nat :: i < |t.refs| ==> RefRecOk(t, i))
    && (forall i: nat :: i < |t.exps| ==> ExportOk(t, i))
    && (forall i: nat :: i < |t.hints| ==> HintOk(t, i))
    && AllBelow(t.symByFile, |t.syms|) && AllBelow(t.impByPath, |t.imps|)
    && AllBelow(t.refsByEnclosing, |t.refs|) && AllBelow(t.refsByFile, |t.refs|)
  }

  predicate Bit(flags: nat, value: nat)
    requires value > 0
  {
    flags / value % 2 == 1
  }

  predicate HasArity(r: SymRec)
  {
    Bit(r.flags, 2)
  }

  function Signed64(n: nat): int
  {
    if n >= 0x8000_0000_0000_0000 then n - 0x1_0000_0000_0000_0000 else n
  }

  /** A file's symbols, in line order. */
  function SymbolsInFile(t: Tables, i: nat): (s: seq<nat>)
    requires Valid(t) && i < |t.files|
    ensures AllBelow(s, |t.syms|)
  {
    assert FileOk(t, i);
    t.symByFile[t.files[i].symOff..t.files[i].symOff + t.files[i].symN]
  }

  function RefsInFile(t: Tables, i: nat): (s: seq<nat>)
    requires Valid(t) && i < |t.files|
    ensures AllBelow(s, |t.refs|)
  {
    assert FileOk(t, i);
    t.refsByFile[t.files[i].refOff..t.files[i].refOff + t.files[i].refN]
  }

  /** The last position of g in s, as a map filled front to back would have it. */
  function Position(s: seq<nat>, g: nat): (r: Option<nat>)
    ensures r.Some? ==> r.value < |s| && s[r.value] == g
    ensures r.None? ==> g !in s
  {
    if s == [] then None
    else if s[|s| - 1] == g then Some(|s| - 1)
    else
      assert s == s[..|s| - 1] + [s[|s| - 1]];
      Position(s[..|s| - 1], g)
  }

  function ArityOf(r: SymRec): Arity
  {
    if !HasArity(r) then UNKNOWN
    else Arity(r.minArgs, if r.maxArgs == 0xFF then VAR_ARGS else r.maxArgs, true)
  }

  /** Symbol g as the file's symbols S place it. */
  function DecodedSymbol(t: Tables, S: seq<nat>, g: nat): Symbol
    requires Valid(t) && g < |t.syms|
  {
    assert SymbolOk(t, g);
    var r := t.syms[g];
    var parent := if r.container == NONE32 then None else Position(S, r.container);
    Symbol(View(t.strs, r.name), r.kind, View(t.strs, r.receiver), View(t.strs, r.signature), View(t.strs, r.doc), r.line, r.endLine,
           Bit(r.flags, 1), if parent.Some? then parent.value + 1 else 0, r.visibility, r.modifiers, ArityOf(r), View(t.strs, r.paramList))
  }

  /** The local index of a symbol, NO_CALLER when there is none. */
  function Local(S: seq<nat>, g: nat): int
  {
    if g == NONE32 then NO_CALLER else match Position(S, g) case None => NO_CALLER case Some(k) => k
  }

  function DecodedRef(t: Tables, S: seq<nat>, R: seq<nat>, g: nat): Ref
    requires Valid(t) && g < |t.refs|
  {
    assert RefRecOk(t, g);
    var r := t.refs[g];
    Ref(r.kind, Local(S, r.enclosing), View(t.strs, r.name), View(t.strs, r.qualifier), r.qualKind, r.line, r.col, r.args,
        View(t.strs, r.argTypes), Local(R, r.lambda) + 1)
  }

  function DecodedHint(t: Tables, S: seq<nat>, i: nat): Hint
    requires Valid(t) && i < |t.hints|
  {
    assert HintOk(t, i);
    var r := t.hints[i];
    Hint(Local(S, r.scope), View(t.strs, r.name), View(t.strs, r.kind), r.line)
  }

  function Paired(strs: Str, r: PairRec): ImportedName
    requires PairOk(strs, r)
  {
    ImportedName(View(strs, r.first), View(strs, r.second))
  }

  /** Import: import i with its listed names. */
  function DecodedImport(t: Tables, i: nat): Import
    requires Valid(t) && i < |t.imps|
  {
    assert ImportOk(t, i);
    var r := t.imps[i];
    Import(View(t.strs, r.path), View(t.strs, r.name), r.line, r.kind,
           seq(r.namesN, k requires 0 <= k < r.namesN => Paired(t.strs, t.impNames[r.namesOff + k])))
  }

  function DecodedExport(t: Tables, i: nat): Export
    requires Valid(t) && i < |t.exps|
  {
    assert ExportOk(t, i);
    var r := t.exps[i];
    Export(View(t.strs, r.name), View(t.strs, r.source), View(t.strs, r.sourceName), r.line)
  }

  /** File: file i with all of its facts. */
  function Decoded(t: Tables, i: nat): File
    requires Valid(t) && i < |t.files|
  {
    assert FileOk(t, i);
    var r := t.files[i];
    var S, R := SymbolsInFile(t, i), RefsInFile(t, i);
    File(View(t.strs, r.path), View(t.strs, r.lang), View(t.strs, r.package), View(t.strs, r.pkgName), r.hash, Signed64(r.size),
         Signed64(r.mtime), View(t.strs, r.parseErr), Bit(r.flags, 1), Bit(r.flags, 2), Bit(r.flags, 4), Bit(r.flags, 8),
         seq(|S|, k requires 0 <= k < |S| => DecodedSymbol(t, S, S[k])),
         seq(r.impN, k requires 0 <= k < r.impN => DecodedImport(t, r.impOff + k)),
         seq(|R|, k requires 0 <= k < |R| => DecodedRef(t, S, R, R[k])),
         seq(r.expN, k requires 0 <= k < r.expN => DecodedExport(t, r.expOff + k)),
         seq(r.hintN, k requires 0 <= k < r.hintN => DecodedHint(t, S, r.hintOff + k)))
  }

  /**
   A file's records as they are read: symbols by line and name, imports by path and line, references by line, column and name,
   exports and hints by line.
   */
  predicate ReadsInOrder(d: File)
  {
    && (forall i, j :: 0 <= i < j < |d.symbols| ==> SymbolsAscend(d.symbols[i], d.symbols[j]))
    && (forall i, j :: 0 <= i < j < |d.imports| ==> ImportsAscend(d.imports[i], d.imports[j]))
    && (forall i, j :: 0 <= i < j < |d.refs| ==> RefsAscend(d.refs[i], d.refs[j]))
    && (forall i, j :: 0 <= i < j < |d.exports| ==> d.exports[i].line <= d.exports[j].line)
    && (forall i, j :: 0 <= i < j < |d.hints| ==> d.hints[i].line <= d.hints[j].line)
  }

  predicate SymbolsAscend(x: Symbol, y: Symbol)
  {
    x.line < y.line || (x.line == y.line && AtMost(x.name, y.name))
  }

  predicate ImportsAscend(x: Import, y: Import)
  {
    Less(x.path, y.path) || (x.path == y.path && x.line <= y.line)
  }

  predicate RefsAscend(x: Ref, y: Ref)
  {
    x.line < y.line || (x.line == y.line && (x.col < y.col || (x.col == y.col && AtMost(x.name, y.name))))
  }

  /** Lines are 32-bit numbers and columns 16-bit ones. */
  predicate Fitting(a: File)
  {
    && (forall k :: 0 <= k < |a.symbols| ==> 0 <= a.symbols[k].line < TWO32)
    && (forall k :: 0 <= k < |a.imports| ==> 0 <= a.imports[k].line < TWO32)
    && (forall k :: 0 <= k < |a.refs| ==> 0 <= a.refs[k].line < TWO32 && 0 <= a.refs[k].col <= 0xFFFF)
    && (forall k :: 0 <= k < |a.exports| ==> 0 <= a.exports[k].line < TWO32)
    && (forall k :: 0 <= k < |a.hints| ==> 0 <= a.hints[k].line < TWO32)
  }

  // ---------------------------------------------------------------------------------------------
  // What encoding writes

  /** A record's origin: a file and an index into its records of one sort. */
  datatype Slot = Slot(file: nat, local: nat)

  /** In which order the records of all files are written. */
  datatype Plan = Plan(syms: seq<Slot>, imps: seq<Slot>, refs: seq<Slot>, exps: seq<Slot>, hints: seq<Slot>)

  /** The slots list every (file, local) of the counts exactly once. */
  ghost predicate Lists(slots: seq<Slot>, counts: seq<nat>)
  {
    && Distinct(slots)
    && forall s: Slot :: s in slots <==> s.file < |counts| && s.local < counts[s.file]
  }

  /** The global index of a slot. */
  function GlobalOf(slots: seq<Slot>, s: Slot): (g: nat)
    requires s in slots
    ensures g < |slots| && slots[g] == s
  {
    if slots[0] == s then 0 else GlobalOf(slots[1..], s) + 1
  }

  function SymbolCounts(files: seq<File>): (c: seq<nat>)
    ensures |c| == |files|
  {
    seq(|files|, i requires 0 <= i < |files| => |files[i].symbols|)
  }

  function ImportCounts(files: seq<File>): (c: seq<nat>)
    ensures |c| == |files|
  {
    seq(|files|, i requires 0 <= i < |files| => |files[i].imports|)
  }

  function RefCounts(files: seq<File>): (c: seq<nat>)
    ensures |c| == |files|
  {
    seq(|files|, i requires 0 <= i < |files| => |files[i].refs|)
  }

  function ExportCounts(files: seq<File>): (c: seq<nat>)
    ensures |c| == |files|
  {
    seq(|files|, i requires 0 <= i < |files| => |files[i].exports|)
  }

  function HintCounts(files: seq<File>): (c: seq<nat>)
    ensures |c| == |files|
  {
    seq(|files|, i requires 0 <= i < |files| => |files[i].hints|)
  }

  /** A conversion to an unsigned 32-bit number. */
  function U32(n: int): (r: nat)
    ensures r < TWO32
  {
    n % TWO32
  }

  function U16(n: int): nat { n % 0x1_0000 }

  function U64(n: int): nat { n % 0x1_0000_0000_0000_0000 }

  predicate Holds(strs: Str, r: StrRef, s: Str)
  {
    RefOk(strs, r) && View(strs, r) == s
  }

  function SymFlags(s: Symbol): nat
  {
    (if s.exported then 1 else 0) + if s.params.known then 2 else 0
  }

  /** An arity that is stored is in range. */
  predicate ArityFits(a: Arity)
  {
    a.known ==> 0 <= a.min <= MAX_ARITY && a.max <= MAX_ARITY && (a.max == VAR_ARGS || a.min <= a.max)
  }

  /** The global index of the symbol at a local index, or none when there is no such symbol. */
  function LinkTo(slots: seq<Slot>, file: nat, local: int, count: nat): nat
    requires forall k: nat :: k < count ==> Slot(file, k) in slots
  {
    if 0 <= local < count then GlobalOf(slots, Slot(file, local)) else NONE32
  }

  /** The slots of every record are listed. */
  ghost predicate Listed(files: seq<File>, plan: Plan)
  {
    && Lists(plan.syms, SymbolCounts(files)) && Lists(plan.imps, ImportCounts(files)) && Lists(plan.refs, RefCounts(files))
    && Lists(plan.exps, ExportCounts(files)) && Lists(plan.hints, HintCounts(files))
    && |plan.syms| < NONE32 && |plan.refs| < NONE32
  }

  /** A local index that is not the record's own. */
  function Other(local: int, own: nat): int
  {
    if local == own then -1 else local
  }

  /** r is the record of the symbol planned at g, with its strings in strs. */
  ghost predicate IsSymbol(files: seq<File>, plan: Plan, strs: Str, r: SymRec, g: nat)
    requires Listed(files, plan) && g < |plan.syms|
  {
    assert plan.syms[g] in plan.syms;
    var slot := plan.syms[g];
    var n := |files[slot.file].symbols|;
    assert forall k: nat :: k < n ==> Slot(slot.file, k) in plan.syms;
    var s := files[slot.file].symbols[slot.local];
    && Holds(strs, r.name, s.name) && Holds(strs, r.receiver, s.receiver) && Holds(strs, r.signature, s.signature)
    && Holds(strs, r.doc, s.doc) && Holds(strs, r.paramList, if s.params.known then s.paramList else [])
    && r.file == slot.file && r.line == U32(s.line) && r.endLine == U32(s.endLine)
    && r.kind == s.kind < KINDS && r.flags == SymFlags(s) && r.visibility == s.visibility < VISIBILITIES && r.modifiers == s.modifiers
    && ArityFits(s.params)
    && r.minArgs == (if s.params.known then s.params.min else 0)
    && r.maxArgs == (if !s.params.known then 0 else if s.params.max == VAR_ARGS then 0xFF else s.params.max)
    && r.container == LinkTo(plan.syms, slot.file, Other(s.container - 1, slot.local), n)
  }

  ghost predicate SymbolWritten(files: seq<File>, plan: Plan, t: Tables, g: nat)
    requires Listed(files, plan) && g < |plan.syms| && |t.syms| == |plan.syms|
  {
    IsSymbol(files, plan, t.strs, t.syms[g], g)
  }

  ghost predicate IsRef(files: seq<File>, plan: Plan, strs: Str, r: RefRec, g: nat)
    requires Listed(files, plan) && g < |plan.refs|
  {
    assert plan.refs[g] in plan.refs;
    var slot := plan.refs[g];
    var f := files[slot.file];
    assert forall k: nat :: k < |f.symbols| ==> Slot(slot.file, k) in plan.syms;
    assert forall k: nat :: k < |f.refs| ==> Slot(slot.file, k) in plan.refs;
    var x := f.refs[slot.local];
    && Holds(strs, r.name, x.name) && Holds(strs, r.qualifier, x.qualifier) && Holds(strs, r.argTypes, x.argTypes)
    && r.file == slot.file && r.line == U32(x.line) && r.col == U16(if x.col < 0xFFFF then x.col else 0xFFFF)
    && r.qualKind == x.qualKind && r.kind == x.kind < REF_KINDS && r.args == x.args
    && r.enclosing == LinkTo(plan.syms, slot.file, x.enclosing, |f.symbols|)
    && r.lambda == LinkTo(plan.refs, slot.file, Other(x.lambda - 1, slot.local), |f.refs|)
  }

  ghost predicate RefWritten(files: seq<File>, plan: Plan, t: Tables, g: nat)
    requires Listed(files, plan) && g < |plan.refs| && |t.refs| == |plan.refs|
  {
    IsRef(files, plan, t.strs, t.refs[g], g)
  }

  ghost predicate IsHint(files: seq<File>, plan: Plan, strs: Str, r: HintRec, i: nat)
    requires Listed(files, plan) && i < |plan.hints|
  {
    assert plan.hints[i] in plan.hints;
    var slot := plan.hints[i];
    var f := files[slot.file];
    assert forall k: nat :: k < |f.symbols| ==> Slot(slot.file, k) in plan.syms;
    var h := f.hints[slot.local];
    && Holds(strs, r.name, h.name) && Holds(strs, r.kind, h.kind) && r.file == slot.file && r.line == U32(h.line)
    && r.scope == LinkTo(plan.syms, slot.file, h.scope, |f.symbols|)
  }

  ghost predicate HintWritten(files: seq<File>, plan: Plan, t: Tables, i: nat)
    requires Listed(files, plan) && i < |plan.hints| && |t.hints| == |plan.hints|
  {
    IsHint(files, plan, t.strs, t.hints[i], i)
  }

  ghost predicate IsPair(strs: Str, r: PairRec, a: Str, b: Str)
  {
    Holds(strs, r.first, a) && Holds(strs, r.second, b)
  }

  ghost predicate IsImport(files: seq<File>, plan: Plan, strs: Str, names: seq<PairRec>, r: ImportRec, i: nat)
    requires Listed(files, plan) && i < |plan.imps|
  {
    assert plan.imps[i] in plan.imps;
    var slot := plan.imps[i];
    var x := files[slot.file].imports[slot.local];
    && Holds(strs, r.path, x.path) && Holds(strs, r.name, x.name) && r.file == slot.file && r.line == U32(x.line)
    && r.kind == x.kind < IMPORT_KINDS && r.namesN == |x.names| && r.namesOff + r.namesN <= |names|
    && forall k :: 0 <= k < |x.names| ==> IsPair(strs, names[r.namesOff + k], x.names[k].name, x.names[k].alias)
  }

  ghost predicate ImportWritten(files: seq<File>, plan: Plan, t: Tables, i: nat)
    requires Listed(files, plan) && i < |plan.imps| && |t.imps| == |plan.imps|
  {
    IsImport(files, plan, t.strs, t.impNames, t.imps[i], i)
  }

  ghost predicate IsExport(files: seq<File>, plan: Plan, strs: Str, r: ExportRec, i: nat)
    requires Listed(files, plan) && i < |plan.exps|
  {
    assert plan.exps[i] in plan.exps;
    var slot := plan.exps[i];
    var x := files[slot.file].exports[slot.local];
    && Holds(strs, r.name, x.name) && Holds(strs, r.source, x.source) && Holds(strs, r.sourceName, x.sourceName)
    && r.file == slot.file && r.line == U32(x.line)
  }

  ghost predicate ExportWritten(files: seq<File>, plan: Plan, t: Tables, i: nat)
    requires Listed(files, plan) && i < |plan.exps| && |t.exps| == |plan.exps|
  {
    IsExport(files, plan, t.strs, t.exps[i], i)
  }

  // ---------------------------------------------------------------------------------------------
  // One file's records, and their order

  /** Symbols follow their lines, then their names. */
  function SymbolPlace(f: File): nat -> Key
  {
    (l: nat) => if l < |f.symbols| then [Num(f.symbols[l].line), Name(f.symbols[l].name)] else []
  }

  /** References follow their lines and columns, then what they name. */
  function RefPlace(f: File): nat -> Key
  {
    (l: nat) =>
      if l < |f.refs| then var x := f.refs[l]; [Num(x.line), Num(x.col), Name(x.name), Name(x.qualifier), Num(x.kind)] else []
  }

  /** Imports follow their paths and lines, then the order they are given in. */
  function ImportPlace(f: File): nat -> Key
  {
    (l: nat) => if l < |f.imports| then [Name(f.imports[l].path), Num(f.imports[l].line), Num(l)] else []
  }

  /** Exports follow their lines, then the order they are given in; so do hints. */
  function ExportPlace(f: File): nat -> Key
  {
    (l: nat) => if l < |f.exports| then [Num(f.exports[l].line), Num(l)] else []
  }

  function HintPlace(f: File): nat -> Key
  {
    (l: nat) => if l < |f.hints| then [Num(f.hints[l].line), Num(l)] else []
  }

  /** s lists exactly the slots of one file, by their global indexes, once each. */
  ghost predicate OfFile(slots: seq<Slot>, s: seq<nat>, file: nat)
  {
    && Distinct(s) && AllBelow(s, |slots|)
    && forall g: nat :: g < |slots| ==> (slots[g].file == file <==> g in s)
  }

  /** The local indexes of global ones. */
  function Locals(slots: seq<Slot>, s: seq<nat>): (r: seq<nat>)
    requires AllBelow(s, |slots|)
    ensures |r| == |s|
  {
    seq(|s|, k requires 0 <= k < |s| => slots[s[k]].local)
  }

  /** A file's records listed in a range of indexes, in their order. */
  ghost predicate IsIndex(slots: seq<Slot>, file: nat, list: seq<nat>, off: nat, n: nat, place: nat -> Key)
  {
    && off + n <= |list| && OfFile(slots, list[off..off + n], file)
    && ByKey(Locals(slots, list[off..off + n]), place)
  }

  /** The local indexes of a range of slots. */
  function LocalsAt(slots: seq<Slot>, off: nat, n: nat): (r: seq<nat>)
    requires off + n <= |slots|
    ensures |r| == n
  {
    seq<nat>(n, k requires 0 <= k < n => slots[off + k].local)
  }

  /** A file's records are exactly a range of the records, in their order. */
  ghost predicate IsGroup(slots: seq<Slot>, file: nat, off: nat, n: nat, place: nat -> Key)
  {
    && off + n <= |slots| && (forall k: nat :: k < |slots| ==> (slots[k].file == file <==> off <= k < off + n))
    && ByKey(LocalsAt(slots, off, n), place)
  }

  function FileFlags(f: File): nat
  {
    (if f.deleted then 1 else 0) + (if f.generated then 2 else 0) + (if f.vendored then 4 else 0) + if f.test then 8 else 0
  }

  ghost predicate IsFile(files: seq<File>, plan: Plan, strs: Str, symByFile: seq<nat>, refsByFile: seq<nat>, r: FileRec, i: nat)
    requires i < |files|
  {
    var f := files[i];
    && Holds(strs, r.path, f.path) && Holds(strs, r.package, f.package) && Holds(strs, r.pkgName, f.pkgName)
    && Holds(strs, r.lang, f.lang) && Holds(strs, r.parseErr, f.parseErr)
    && r.hash == f.hash && r.size == U64(f.size) && r.mtime == U64(f.mtime) && r.flags == FileFlags(f)
    && r.symN == |f.symbols| && IsIndex(plan.syms, i, symByFile, r.symOff, r.symN, SymbolPlace(f))
    && r.impN == |f.imports| && IsGroup(plan.imps, i, r.impOff, r.impN, ImportPlace(f))
    && r.refN == |f.refs| && IsIndex(plan.refs, i, refsByFile, r.refOff, r.refN, RefPlace(f))
    && r.expN == |f.exports| && IsGroup(plan.exps, i, r.expOff, r.expN, ExportPlace(f))
    && r.hintN == |f.hints| && IsGroup(plan.hints, i, r.hintOff, r.hintN, HintPlace(f))
  }

  ghost predicate FileWritten(files: seq<File>, plan: Plan, t: Tables, i: nat)
    requires i < |files| && |t.files| == |files|
  {
    IsFile(files, plan, t.strs, t.symByFile, t.refsByFile, t.files[i], i)
  }

  /** The tables hold the files, strictly sorted by path, in the planned order. */
  ghost predicate Written(files: seq<File>, plan: Plan, t: Tables)
  {
    && Listed(files, plan)
    && |t.files| == |files| && |t.syms| == |plan.syms| && |t.imps| == |plan.imps| && |t.refs| == |plan.refs|
    && |t.exps| == |plan.exps| && |t.hints| == |plan.hints|
    && (forall i: nat, j: nat :: i < j < |files| ==> Less(files[i].path, files[j].path))
    && (forall i: nat :: i < |files| ==> FileWritten(files, plan, t, i))
    && (forall g: nat :: g < |plan.syms| ==> SymbolWritten(files, plan, t, g))
    && (forall g: nat :: g < |plan.imps| ==> ImportWritten(files, plan, t, g))
    && (forall g: nat :: g < |plan.refs| ==> RefWritten(files, plan, t, g))
    && (forall g: nat :: g < |plan.exps| ==> ExportWritten(files, plan, t, g))
    && (forall g: nat :: g < |plan.hints| ==> HintWritten(files, plan, t, g))
    && PairsOk(t.strs, t.impNames) && SearchOk(t)
    && AllBelow(t.symByFile, |t.syms|) && AllBelow(t.impByPath, |t.imps|)
    && AllBelow(t.refsByEnclosing, |t.refs|) && AllBelow(t.refsByFile, |t.refs|)
  }

  // ---------------------------------------------------------------------------------------------
  // Written tables are valid

  lemma {:induction false} WrittenSymbolIsOk(files: seq<File>, plan: Plan, t: Tables, g: nat)
    requires Written(files, plan, t) && g < |t.syms|
    ensures SymbolOk(t, g)
  {
    assert SymbolWritten(files, plan, t, g);
    var slot, r := plan.syms[g], t.syms[g];
    assert slot in plan.syms;
    if r.container != NONE32 {
      assert SymbolWritten(files, plan, t, r.container);
    }
  }

  lemma {:induction false} WrittenRefIsOk(files: seq<File>, plan: Plan, t: Tables, g: nat)
    requires Written(files, plan, t) && g < |t.refs|
    ensures RefRecOk(t, g)
  {
    assert RefWritten(files, plan, t, g);
    var slot, r := plan.refs[g], t.refs[g];
    assert slot in plan.refs;
    if r.enclosing != NONE32 { assert SymbolWritten(files, plan, t, r.enclosing); }
    if r.lambda != NONE32 { assert RefWritten(files, plan, t, r.lambda); }
  }

  lemma {:induction false} WrittenHintIsOk(files: seq<File>, plan: Plan, t: Tables, i: nat)
    requires Written(files, plan, t) && i < |t.hints|
    ensures HintOk(t, i)
  {
    assert HintWritten(files, plan, t, i);
    var slot, r := plan.hints[i], t.hints[i];
    assert slot in plan.hints;
    if r.scope != NONE32 { assert SymbolWritten(files, plan, t, r.scope); }
  }

  lemma {:induction false} WrittenImportIsOk(files: seq<File>, plan: Plan, t: Tables, i: nat)
    requires Written(files, plan, t) && i < |t.imps|
    ensures ImportOk(t, i)
  {
    assert ImportWritten(files, plan, t, i);
    assert plan.imps[i] in plan.imps;
  }

  lemma {:induction false} WrittenExportIsOk(files: seq<File>, plan: Plan, t: Tables, i: nat)
    requires Written(files, plan, t) && i < |t.exps|
    ensures ExportOk(t, i)
  {
    assert ExportWritten(files, plan, t, i);
    assert plan.exps[i] in plan.exps;
  }

  lemma {:induction false} WrittenFileIsOk(files: seq<File>, plan: Plan, t: Tables, i: nat)
    requires Written(files, plan, t) && i < |t.files|
    ensures FileOk(t, i) && View(t.strs, t.files[i].path) == files[i].path
  {
    assert FileWritten(files, plan, t, i);
  }

  /** Every image that encoding produces passes validation. */
  lemma {:induction false} WrittenIsValid(files: seq<File>, plan: Plan, t: Tables)
    requires Written(files, plan, t)
    ensures Valid(t)
  {
    hide FileWritten, SymbolWritten, ImportWritten, RefWritten, ExportWritten, HintWritten, Listed;
    hide SymbolOk, ImportOk, RefRecOk, ExportOk, HintOk, SearchOk;
    forall i: nat | i < |t.files| ensures FileOk(t, i) && View(t.strs, t.files[i].path) == files[i].path { WrittenFileIsOk(files, plan, t, i); }
    forall g: nat | g < |t.syms| ensures SymbolOk(t, g) { WrittenSymbolIsOk(files, plan, t, g); }
    forall i: nat | i < |t.imps| ensures ImportOk(t, i) { WrittenImportIsOk(files, plan, t, i); }
    forall g: nat | g < |t.refs| ensures RefRecOk(t, g) { WrittenRefIsOk(files, plan, t, g); }
    forall i: nat | i < |t.exps| ensures ExportOk(t, i) { WrittenExportIsOk(files, plan, t, i); }
    forall i: nat | i < |t.hints| ensures HintOk(t, i) { WrittenHintIsOk(files, plan, t, i); }
  }

  // ---------------------------------------------------------------------------------------------
  // The orders that lookups rely on

  function SymbolName(t: Tables, g: nat): Str
    requires g < |t.syms| && SymbolOk(t, g)
  {
    View(t.strs, t.syms[g].name)
  }

  function RefName(t: Tables, g: nat): Str
    requires g < |t.refs| && RefRecOk(t, g)
  {
    View(t.strs, t.refs[g].name)
  }

  function Package(t: Tables, i: nat): Str
    requires i < |t.files| && FileOk(t, i)
  {
    View(t.strs, t.files[i].package)
  }

  function ImportPath(t: Tables, i: nat): Str
    requires i < |t.imps| && ImportOk(t, i)
  {
    View(t.strs, t.imps[i].path)
  }

  /** a comes before b among the references of symbols: by enclosing symbol, then line, then index. */
  predicate EnclosedBefore(refs: seq<RefRec>, a: nat, b: nat)
    requires a < |refs| && b < |refs|
  {
    refs[a].enclosing < refs[b].enclosing
    || (refs[a].enclosing == refs[b].enclosing && (refs[a].line < refs[b].line || (refs[a].line == refs[b].line && a < b)))
  }

  predicate SymbolsRise(t: Tables, i: nat, j: nat)
    requires i < |t.syms| && j < |t.syms| && SymbolOk(t, i) && SymbolOk(t, j)
  {
    var x, y := t.syms[i], t.syms[j];
    Less(SymbolName(t, i), SymbolName(t, j)) || (SymbolName(t, i) == SymbolName(t, j) && (x.file < y.file || (x.file == y.file && x.line <= y.line)))
  }

  predicate RefsRise(t: Tables, i: nat, j: nat)
    requires i < |t.refs| && j < |t.refs| && RefRecOk(t, i) && RefRecOk(t, j)
  {
    var x, y := t.refs[i], t.refs[j];
    var p, q := View(t.strs, x.qualifier), View(t.strs, y.qualifier);
    Less(RefName(t, i), RefName(t, j)) || (RefName(t, i) == RefName(t, j) && (Less(p, q) || (p == q && PlacesRise(x, y))))
  }

  predicate PlacesRise(x: RefRec, y: RefRec)
  {
    x.file < y.file || (x.file == y.file &&
      (x.line < y.line || (x.line == y.line && (x.col < y.col || (x.col == y.col && x.kind <= y.kind)))))
  }

  /** All symbols go by name, file and line, all references by name, qualifier, file, line, column and kind. */
  ghost predicate AllRise(t: Tables)
    requires Valid(t)
  {
    && (forall i: nat, j: nat :: i < j < |t.syms| && SymbolOk(t, i) && SymbolOk(t, j) ==> SymbolsRise(t, i, j))
    && (forall i: nat, j: nat :: i < j < |t.refs| && RefRecOk(t, i) && RefRecOk(t, j) ==> RefsRise(t, i, j))
  }

  /**
   Encoding's orders: symbols and references by name, references by enclosing symbol, imports by path, files by package then
   path.
   */
  ghost predicate InOrder(t: Tables)
    requires Valid(t)
  {
    && (forall i: nat, j: nat :: i < j < |t.syms| && SymbolOk(t, i) && SymbolOk(t, j) ==> AtMost(SymbolName(t, i), SymbolName(t, j)))
    && (forall i: nat, j: nat :: i < j < |t.refs| && RefRecOk(t, i) && RefRecOk(t, j) ==> AtMost(RefName(t, i), RefName(t, j)))
    && (forall g: nat :: g < |t.refs| ==> (g in t.refsByEnclosing <==> t.refs[g].enclosing != NONE32))
    && (forall i, j :: 0 <= i < j < |t.refsByEnclosing| ==> EnclosedBefore(t.refs, t.refsByEnclosing[i], t.refsByEnclosing[j]))
    && (forall i: nat :: i < |t.imps| ==> i in t.impByPath)
    && (forall i, j :: 0 <= i < j < |t.impByPath| && ImportOk(t, t.impByPath[i]) && ImportOk(t, t.impByPath[j]) ==>
          Less(ImportPath(t, t.impByPath[i]), ImportPath(t, t.impByPath[j]))
          || (ImportPath(t, t.impByPath[i]) == ImportPath(t, t.impByPath[j]) && t.impByPath[i] < t.impByPath[j]))
    && (forall i: nat :: i < |t.files| ==> i in t.pkgFiles)
    && (forall i, j :: 0 <= i < j < |t.pkgFiles| && FileOk(t, t.pkgFiles[i]) && FileOk(t, t.pkgFiles[j]) ==>
          Less(Package(t, t.pkgFiles[i]), Package(t, t.pkgFiles[j]))
          || (Package(t, t.pkgFiles[i]) == Package(t, t.pkgFiles[j]) && t.pkgFiles[i] < t.pkgFiles[j]))
  }
}
