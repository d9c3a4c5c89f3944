/**
 Decoding a file from written tables gives back its facts, re-ordered, with every link pointing to the same symbol or
 reference as before.
 */
module SegmentRoundTrip {
  import opened Common
  import opened Order
  import opened SegmentRecords
  import opened SegmentTables
  import opened Sorting

  /** In which order a file's records are read back. */
  datatype Orders = Orders(syms: seq<nat>, imps: seq<nat>, refs: seq<nat>, exps: seq<nat>, hints: seq<nat>)

  /** Where the element at a local index went; -1 when there is none. */
  function Moved(order: seq<nat>, local: int): int
  {
    if local < 0 then -1 else match Position(order, local) case None => -1 case Some(k) => k
  }

  /** What is stored of a symbol: lines as unsigned 32-bit numbers, and a parameter list only with a known arity. */
  function StoredSymbol(s: Symbol, order: seq<nat>, own: nat): Symbol
  {
    s.(line := U32(s.line), endLine := U32(s.endLine), container := Moved(order, Other(s.container - 1, own)) + 1,
       params := if s.params.known then s.params else UNKNOWN, paramList := if s.params.known then s.paramList else [])
  }

  /** What is stored of a reference: columns up to 0xFFFF. */
  function StoredRef(x: Ref, syms: seq<nat>, refs: seq<nat>, own: nat): Ref
  {
    x.(line := U32(x.line), col := U16(if x.col < 0xFFFF then x.col else 0xFFFF), enclosing := Moved(syms, x.enclosing),
       lambda := Moved(refs, Other(x.lambda - 1, own)) + 1)
  }

  function StoredHint(h: Hint, syms: seq<nat>): Hint
  {
    h.(line := U32(h.line), scope := Moved(syms, h.scope))
  }

  function StoredImport(x: Import): Import
  {
    x.(line := U32(x.line))
  }

  function StoredExport(x: Export): Export
  {
    x.(line := U32(x.line))
  }

  /** Everything but the records. */
  predicate SameMeta(f: File, d: File)
  {
    d == f.(symbols := d.symbols, imports := d.imports, refs := d.refs, exports := d.exports, hints := d.hints)
  }

  /** d is f with its records in the given orders and every link following them. */
  ghost predicate Reordered(f: File, d: File, o: Orders)
  {
    && SameMeta(f, d)
    && Permutes(o.syms, |f.symbols|) && Permutes(o.imps, |f.imports|) && Permutes(o.refs, |f.refs|)
    && Permutes(o.exps, |f.exports|) && Permutes(o.hints, |f.hints|)
    && |d.symbols| == |f.symbols| && |d.imports| == |f.imports| && |d.refs| == |f.refs|
    && |d.exports| == |f.exports| && |d.hints| == |f.hints|
    && (forall k: nat :: k < |d.symbols| ==> d.symbols[k] == StoredSymbol(f.symbols[o.syms[k]], o.syms, o.syms[k]))
    && (forall k: nat :: k < |d.imports| ==> d.imports[k] == StoredImport(f.imports[o.imps[k]]))
    && (forall k: nat :: k < |d.refs| ==> d.refs[k] == StoredRef(f.refs[o.refs[k]], o.syms, o.refs, o.refs[k]))
    && (forall k: nat :: k < |d.exports| ==> d.exports[k] == StoredExport(f.exports[o.exps[k]]))
    && (forall k: nat :: k < |d.hints| ==> d.hints[k] == StoredHint(f.hints[o.hints[k]], o.syms))
  }

  /**
   The orders follow the source: symbols by line and name, imports by path and line, references by line, column and what they
   name, exports and hints by line; imports, exports and hints that tie keep their order.
   */
  ghost predicate SourceOrder(f: File, o: Orders)
  {
    && ByKey(o.syms, SymbolPlace(f)) && ByKey(o.imps, ImportPlace(f)) && ByKey(o.refs, RefPlace(f))
    && ByKey(o.exps, ExportPlace(f)) && ByKey(o.hints, HintPlace(f))
  }

  /**
   The same, record by record: no later record belongs before an earlier one, and imports, exports and hints that tie keep the
   order they were given in.
   */
  ghost predicate FollowsSource(f: File, o: Orders)
    requires Permutes(o.syms, |f.symbols|) && Permutes(o.imps, |f.imports|) && Permutes(o.refs, |f.refs|)
    requires Permutes(o.exps, |f.exports|) && Permutes(o.hints, |f.hints|)
  {
    && (forall i, j :: 0 <= i < j < |o.syms| ==> SymbolsAscend(f.symbols[o.syms[i]], f.symbols[o.syms[j]]))
    && (forall i, j :: 0 <= i < j < |o.imps| ==> var x, y := f.imports[o.imps[i]], f.imports[o.imps[j]];
          ImportsAscend(x, y) && (x.path == y.path && x.line == y.line ==> o.imps[i] < o.imps[j]))
    && (forall i, j :: 0 <= i < j < |o.refs| ==> RefsAscend(f.refs[o.refs[i]], f.refs[o.refs[j]]))
    && (forall i, j :: 0 <= i < j < |o.exps| ==> var x, y := f.exports[o.exps[i]], f.exports[o.exps[j]];
          x.line < y.line || (x.line == y.line && o.exps[i] < o.exps[j]))
    && (forall i, j :: 0 <= i < j < |o.hints| ==> var x, y := f.hints[o.hints[i]], f.hints[o.hints[j]];
          x.line < y.line || (x.line == y.line && o.hints[i] < o.hints[j]))
  }

  /** d is f with its records in source order, and reads in that order itself when the format can hold every position. */
  ghost predicate Returns(f: File, d: File)
  {
    (exists o :: Reordered(f, d, o) && FollowsSource(f, o)) && (Fitting(f) ==> ReadsInOrder(d))
  }

  lemma {:induction false} LineThenName(a: Key, b: Key)
    requires |a| >= 2 && |b| >= 2 && a[0].Num? && b[0].Num? && !KeyBefore(b, a)
    ensures a[0].n < b[0].n || (a[0].n == b[0].n && !KeyBefore(b[1..], a[1..]))
  {
  }

  lemma {:induction false} NameThenLine(a: Key, b: Key)
    requires |a| >= 2 && |b| >= 2 && a[0].Name? && b[0].Name? && !KeyBefore(b, a)
    ensures Less(a[0].s, b[0].s) || (a[0].s == b[0].s && !KeyBefore(b[1..], a[1..]))
  {
    Total(a[0].s, b[0].s);
  }

  lemma {:induction false} NameFirst(a: Key, b: Key)
    requires a != [] && b != [] && a[0].Name? && b[0].Name? && !KeyBefore(b, a)
    ensures AtMost(a[0].s, b[0].s)
  {
    Total(a[0].s, b[0].s);
  }

  lemma {:induction false} NumberLast(a: Key, b: Key)
    requires |a| == |b| == 1 && a[0].Num? && b[0].Num? && !KeyBefore(b, a)
    ensures a[0].n <= b[0].n
  {
  }

  lemma {:induction false} SymbolPair(f: File, i: nat, j: nat)
    requires i < |f.symbols| && j < |f.symbols| && !KeyBefore(SymbolPlace(f)(j), SymbolPlace(f)(i))
    ensures SymbolsAscend(f.symbols[i], f.symbols[j])
  {
    hide KeyBefore;
    var a, b := SymbolPlace(f)(i), SymbolPlace(f)(j);
    LineThenName(a, b);
    if a[0] == b[0] { NameFirst(a[1..], b[1..]); }
  }

  lemma {:induction false} ImportPair(f: File, i: nat, j: nat)
    requires i < |f.imports| && j < |f.imports| && i != j && !KeyBefore(ImportPlace(f)(j), ImportPlace(f)(i))
    ensures var x, y := f.imports[i], f.imports[j]; ImportsAscend(x, y) && (x.path == y.path && x.line == y.line ==> i < j)
  {
    hide KeyBefore;
    var a, b := ImportPlace(f)(i), ImportPlace(f)(j);
    NameThenLine(a, b);
    Irreflexive(f.imports[i].path);
    if a[0] == b[0] {
      LineThenName(a[1..], b[1..]);
      if a[1] == b[1] { NumberLast(a[1..][1..], b[1..][1..]); }
    }
  }

  lemma {:induction false} RefPair(f: File, i: nat, j: nat)
    requires i < |f.refs| && j < |f.refs| && !KeyBefore(RefPlace(f)(j), RefPlace(f)(i))
    ensures RefsAscend(f.refs[i], f.refs[j])
  {
    hide KeyBefore;
    var a, b := RefPlace(f)(i), RefPlace(f)(j);
    LineThenName(a, b);
    if a[0] == b[0] {
      LineThenName(a[1..], b[1..]);
      if a[1] == b[1] { NameFirst(a[1..][1..], b[1..][1..]); }
    }
  }

  lemma {:induction false} LinePair(a: int, i: nat, b: int, j: nat)
    requires i != j && !KeyBefore([Num(b), Num(j)], [Num(a), Num(i)])
    ensures a < b || (a == b && i < j)
  {
    TwoParts([Num(b), Num(j)], [Num(a), Num(i)]);
  }

  /** The keys put the records in their source order. */
  lemma {:induction false} OrderIsPlain(f: File, o: Orders)
    requires Permutes(o.syms, |f.symbols|) && Permutes(o.imps, |f.imports|) && Permutes(o.refs, |f.refs|)
    requires Permutes(o.exps, |f.exports|) && Permutes(o.hints, |f.hints|) && SourceOrder(f, o)
    ensures FollowsSource(f, o)
  {
    hide KeyBefore, SymbolsAscend, ImportsAscend, RefsAscend, SymbolPlace, ImportPlace, RefPlace, ExportPlace, HintPlace;
    forall i, j | 0 <= i < j < |o.syms| ensures SymbolsAscend(f.symbols[o.syms[i]], f.symbols[o.syms[j]]) {
      SymbolPair(f, o.syms[i], o.syms[j]);
    }
    forall i, j | 0 <= i < j < |o.imps| ensures var x, y := f.imports[o.imps[i]], f.imports[o.imps[j]];
      ImportsAscend(x, y) && (x.path == y.path && x.line == y.line ==> o.imps[i] < o.imps[j])
    {
      ImportPair(f, o.imps[i], o.imps[j]);
    }
    forall i, j | 0 <= i < j < |o.refs| ensures RefsAscend(f.refs[o.refs[i]], f.refs[o.refs[j]]) { RefPair(f, o.refs[i], o.refs[j]); }
    ExportsArePlain(f, o.exps);
    HintsArePlain(f, o.hints);
  }

  lemma {:induction false} ExportsArePlain(f: File, o: seq<nat>)
    requires Permutes(o, |f.exports|) && ByKey(o, ExportPlace(f))
    ensures forall i, j :: 0 <= i < j < |o| ==> var x, y := f.exports[o[i]], f.exports[o[j]];
      x.line < y.line || (x.line == y.line && o[i] < o[j])
  {
    hide KeyBefore;
    forall i, j | 0 <= i < j < |o| ensures var x, y := f.exports[o[i]], f.exports[o[j]]; x.line < y.line || (x.line == y.line && o[i] < o[j]) {
      assert !KeyBefore(ExportPlace(f)(o[j]), ExportPlace(f)(o[i]));
      LinePair(f.exports[o[i]].line, o[i], f.exports[o[j]].line, o[j]);
    }
  }

  lemma {:induction false} HintsArePlain(f: File, o: seq<nat>)
    requires Permutes(o, |f.hints|) && ByKey(o, HintPlace(f))
    ensures forall i, j :: 0 <= i < j < |o| ==> var x, y := f.hints[o[i]], f.hints[o[j]];
      x.line < y.line || (x.line == y.line && o[i] < o[j])
  {
    hide KeyBefore;
    forall i, j | 0 <= i < j < |o| ensures var x, y := f.hints[o[i]], f.hints[o[j]]; x.line < y.line || (x.line == y.line && o[i] < o[j]) {
      assert !KeyBefore(HintPlace(f)(o[j]), HintPlace(f)(o[i]));
      LinePair(f.hints[o[i]].line, o[i], f.hints[o[j]].line, o[j]);
    }
  }

  lemma {:induction false} PermutesIn(o: seq<nat>, n: nat)
    requires Permutes(o, n)
    ensures |o| == n && forall k :: 0 <= k < n ==> o[k] < n
  {
  }

  lemma {:induction false} SymbolsRead(f: File, d: File, o: Orders)
    requires Reordered(f, d, o) && FollowsSource(f, o) && Fitting(f)
    ensures forall i, j :: 0 <= i < j < |d.symbols| ==> SymbolsAscend(d.symbols[i], d.symbols[j])
  {
    hide Less, AtMost, Moved, Permutes, StoredRef, StoredHint, ImportsAscend, RefsAscend;
    var n := |f.symbols|;
    assert |o.syms| == n && forall k :: 0 <= k < n ==> o.syms[k] < n by { PermutesIn(o.syms, n); }
    forall k: nat | k < |d.symbols| ensures d.symbols[k].line == f.symbols[o.syms[k]].line && d.symbols[k].name == f.symbols[o.syms[k]].name {
      assert d.symbols[k] == StoredSymbol(f.symbols[o.syms[k]], o.syms, o.syms[k]);
    }
  }

  lemma {:induction false} ImportsRead(f: File, d: File, o: Orders)
    requires Reordered(f, d, o) && FollowsSource(f, o) && Fitting(f)
    ensures forall i, j :: 0 <= i < j < |d.imports| ==> ImportsAscend(d.imports[i], d.imports[j])
  {
    hide Less, AtMost, Moved, Permutes, StoredSymbol, StoredRef, StoredHint, SymbolsAscend, RefsAscend;
    var n := |f.imports|;
    assert |o.imps| == n && forall k :: 0 <= k < n ==> o.imps[k] < n by { PermutesIn(o.imps, n); }
    forall k: nat | k < |d.imports| ensures d.imports[k].line == f.imports[o.imps[k]].line && d.imports[k].path == f.imports[o.imps[k]].path {
      assert d.imports[k] == StoredImport(f.imports[o.imps[k]]);
    }
  }

  lemma {:induction false} RefsRead(f: File, d: File, o: Orders)
    requires Reordered(f, d, o) && FollowsSource(f, o) && Fitting(f)
    ensures forall i, j :: 0 <= i < j < |d.refs| ==> RefsAscend(d.refs[i], d.refs[j])
  {
    hide Less, AtMost, Moved, Permutes, StoredSymbol, StoredHint, SymbolsAscend, ImportsAscend;
    var n := |f.refs|;
    assert |o.refs| == n && forall k :: 0 <= k < n ==> o.refs[k] < n by { PermutesIn(o.refs, n); }
    forall k: nat | k < |d.refs| ensures var x, y := d.refs[k], f.refs[o.refs[k]]; x.line == y.line && x.col == y.col && x.name == y.name {
      assert d.refs[k] == StoredRef(f.refs[o.refs[k]], o.syms, o.refs, o.refs[k]);
    }
  }

  lemma {:induction false} ExportsRead(f: File, d: File, o: Orders)
    requires Reordered(f, d, o) && FollowsSource(f, o) && Fitting(f)
    ensures forall i, j :: 0 <= i < j < |d.exports| ==> d.exports[i].line <= d.exports[j].line
  {
    hide Less, AtMost, Moved, Permutes, StoredSymbol, StoredRef, StoredHint, SymbolsAscend, ImportsAscend, RefsAscend;
    var n := |f.exports|;
    assert |o.exps| == n && forall k :: 0 <= k < n ==> o.exps[k] < n by { PermutesIn(o.exps, n); }
    forall k: nat | k < |d.exports| ensures d.exports[k].line == f.exports[o.exps[k]].line {
      assert d.exports[k] == StoredExport(f.exports[o.exps[k]]);
    }
  }

  lemma {:induction false} HintsRead(f: File, d: File, o: Orders)
    requires Reordered(f, d, o) && FollowsSource(f, o) && Fitting(f)
    ensures forall i, j :: 0 <= i < j < |d.hints| ==> d.hints[i].line <= d.hints[j].line
  {
    hide Less, AtMost, Moved, Permutes, StoredSymbol, StoredRef, SymbolsAscend, ImportsAscend, RefsAscend;
    var n := |f.hints|;
    assert |o.hints| == n && forall k :: 0 <= k < n ==> o.hints[k] < n by { PermutesIn(o.hints, n); }
    forall k: nat | k < |d.hints| ensures d.hints[k].line == f.hints[o.hints[k]].line {
      assert d.hints[k] == StoredHint(f.hints[o.hints[k]], o.syms);
    }
  }

  /** What comes back of a file whose positions the format can hold reads in source order. */
  lemma {:induction false} ReorderedReads(f: File, d: File, o: Orders)
    requires Reordered(f, d, o) && FollowsSource(f, o) && Fitting(f)
    ensures ReadsInOrder(d)
  {
    hide Reordered, FollowsSource, Fitting, SymbolsAscend, ImportsAscend, RefsAscend;
    SymbolsRead(f, d, o);
    ImportsRead(f, d, o);
    RefsRead(f, d, o);
    ExportsRead(f, d, o);
    HintsRead(f, d, o);
  }

  ghost predicate StoredBy(f: File, d: File, o: Orders)
  {
    Reordered(f, d, o) && SourceOrder(f, o)
  }

  /** d is f as the format stores it: every record once, in source order, with every link following. */
  ghost predicate Stored(f: File, d: File)
  {
    exists o :: StoredBy(f, d, o)
  }

  /** The global indexes of one file's slots, in any order, name each local index once. */
  lemma {:induction false} LocalsPermute(slots: seq<Slot>, counts: seq<nat>, s: seq<nat>, file: nat)
    requires Lists(slots, counts) && file < |counts| && OfFile(slots, s, file) && |s| == counts[file]
    ensures Permutes(Locals(slots, s), counts[file])
  {
    var locals := Locals(slots, s);
    forall i | 0 <= i < |s| ensures slots[s[i]].file == file && slots[s[i]] == Slot(file, locals[i]) && locals[i] < counts[file] {
      assert s[i] in s && slots[s[i]] in slots;
    }
    forall i, j | 0 <= i < j < |s| ensures locals[i] != locals[j] {
      assert s[i] != s[j];
      assert slots[s[i]] == Slot(file, locals[i]) && slots[s[j]] == Slot(file, locals[j]);
    }
    forall l: nat | l < counts[file] ensures l in locals {
      assert Slot(file, l) in slots;
      var g := GlobalOf(slots, Slot(file, l));
      assert g in s;
      var k :| 0 <= k < |s| && s[k] == g;
      assert locals[k] == l;
    }
  }

  lemma {:induction false} PositionAgrees(a: seq<nat>, g: nat, b: seq<nat>, l: nat)
    requires |a| == |b| && forall k :: 0 <= k < |a| ==> (a[k] == g <==> b[k] == l)
    ensures Position(a, g) == Position(b, l)
  {
    if a != [] { PositionAgrees(a[..|a| - 1], g, b[..|b| - 1], l); }
  }

  /** Following a written link in the decoded file leads where the local link led. */
  lemma {:induction false} LinkMoves(slots: seq<Slot>, counts: seq<nat>, s: seq<nat>, file: nat, local: int)
    requires Lists(slots, counts) && file < |counts| && OfFile(slots, s, file) && |s| == counts[file] && |slots| < NONE32
    requires forall k: nat :: k < counts[file] ==> Slot(file, k) in slots
    ensures Local(s, LinkTo(slots, file, local, counts[file])) == Moved(Locals(slots, s), local)
  {
    var locals := Locals(slots, s);
    LocalsPermute(slots, counts, s, file);
    if 0 <= local < counts[file] {
      var g := GlobalOf(slots, Slot(file, local));
      forall k | 0 <= k < |s| ensures s[k] == g <==> locals[k] == local {
        assert s[k] in s;
        assert slots[s[k]] == Slot(file, locals[k]);
      }
      PositionAgrees(s, g, locals, local);
    } else if local >= 0 {
      assert local !in locals;
    }
  }

  /** The stored bits of flags. */
  lemma {:induction false} SymbolBits(s: Symbol)
    ensures Bit(SymFlags(s), 1) == s.exported && Bit(SymFlags(s), 2) == s.params.known
  {
  }

  lemma {:induction false} FileBits(f: File)
    ensures Bit(FileFlags(f), 1) == f.deleted && Bit(FileFlags(f), 2) == f.generated
    ensures Bit(FileFlags(f), 4) == f.vendored && Bit(FileFlags(f), 8) == f.test
  {
  }

  lemma {:induction false} SignedIsSame(n: int)
    requires -0x8000_0000_0000_0000 <= n < 0x8000_0000_0000_0000
    ensures Signed64(U64(n)) == n
  {
  }

  lemma {:induction false} SymbolRoundTrips(files: seq<File>, plan: Plan, t: Tables, i: nat, k: nat)
    requires Written(files, plan, t) && Valid(t) && i < |files|
    requires FileOk(t, i) && k < |SymbolsInFile(t, i)|
    ensures var S := SymbolsInFile(t, i); var order := Locals(plan.syms, S);
      order[k] < |files[i].symbols| && DecodedSymbol(t, S, S[k]) == StoredSymbol(files[i].symbols[order[k]], order, order[k])
  {
    hide Lists, OfFile, Valid, Locals, LinkTo, Position;
    var S := SymbolsInFile(t, i);
    var g := S[k];
    InFile(files, plan, t, i, k);
    assert SymbolWritten(files, plan, t, g);
    assert SymbolOk(t, g) by { WrittenSymbolIsOk(files, plan, t, g); }
    var s := files[i].symbols[plan.syms[g].local];
    FileLink(files, plan, t, i, Other(s.container - 1, plan.syms[g].local));
    SymbolBits(s);
  }

  /** The k-th symbol of a decoded file is one of the file's own. */
  lemma {:induction false} InFile(files: seq<File>, plan: Plan, t: Tables, i: nat, k: nat)
    requires Written(files, plan, t) && Valid(t) && i < |files| && k < |SymbolsInFile(t, i)|
    ensures var S := SymbolsInFile(t, i);
      && S[k] < |plan.syms| && plan.syms[S[k]].file == i && plan.syms[S[k]].local < |files[i].symbols|
      && AllBelow(S, |plan.syms|) && Locals(plan.syms, S)[k] == plan.syms[S[k]].local
  {
    var S := SymbolsInFile(t, i);
    assert FileWritten(files, plan, t, i) && S[k] in S;
    assert plan.syms[S[k]] in plan.syms;
  }

  lemma {:induction false} FileLink(files: seq<File>, plan: Plan, t: Tables, i: nat, local: int)
    requires Written(files, plan, t) && Valid(t) && i < |files|
    ensures forall k: nat :: k < |files[i].symbols| ==> Slot(i, k) in plan.syms
    ensures AllBelow(SymbolsInFile(t, i), |plan.syms|)
    ensures Local(SymbolsInFile(t, i), LinkTo(plan.syms, i, local, |files[i].symbols|)) == Moved(Locals(plan.syms, SymbolsInFile(t, i)), local)
  {
    hide LinkTo, Local, Locals, Valid, Moved;
    assert FileWritten(files, plan, t, i);
    assert SymbolCounts(files)[i] == |files[i].symbols|;
    LinkMoves(plan.syms, SymbolCounts(files), SymbolsInFile(t, i), i, local);
  }

  lemma {:induction false} RefInFile(files: seq<File>, plan: Plan, t: Tables, i: nat, k: nat)
    requires Written(files, plan, t) && Valid(t) && i < |files| && k < |RefsInFile(t, i)|
    ensures var R := RefsInFile(t, i);
      && R[k] < |plan.refs| && plan.refs[R[k]].file == i && plan.refs[R[k]].local < |files[i].refs|
      && AllBelow(R, |plan.refs|) && Locals(plan.refs, R)[k] == plan.refs[R[k]].local
  {
    var R := RefsInFile(t, i);
    assert FileWritten(files, plan, t, i) && R[k] in R;
    assert plan.refs[R[k]] in plan.refs;
  }

  lemma {:induction false} RefLink(files: seq<File>, plan: Plan, t: Tables, i: nat, local: int)
    requires Written(files, plan, t) && Valid(t) && i < |files|
    ensures forall k: nat :: k < |files[i].refs| ==> Slot(i, k) in plan.refs
    ensures AllBelow(RefsInFile(t, i), |plan.refs|)
    ensures Local(RefsInFile(t, i), LinkTo(plan.refs, i, local, |files[i].refs|)) == Moved(Locals(plan.refs, RefsInFile(t, i)), local)
  {
    hide LinkTo, Local, Locals, Valid, Moved;
    assert FileWritten(files, plan, t, i);
    assert RefCounts(files)[i] == |files[i].refs|;
    LinkMoves(plan.refs, RefCounts(files), RefsInFile(t, i), i, local);
  }

  lemma {:induction false} RefRoundTrips(files: seq<File>, plan: Plan, t: Tables, i: nat, k: nat)
    requires Written(files, plan, t) && Valid(t) && i < |files|
    requires FileOk(t, i) && k < |RefsInFile(t, i)|
    ensures AllBelow(SymbolsInFile(t, i), |plan.syms|) && AllBelow(RefsInFile(t, i), |plan.refs|)
    ensures var S, R := SymbolsInFile(t, i), RefsInFile(t, i);
      var syms, refs := Locals(plan.syms, S), Locals(plan.refs, R);
      refs[k] < |files[i].refs| && DecodedRef(t, S, R, R[k]) == StoredRef(files[i].refs[refs[k]], syms, refs, refs[k])
  {
    hide Lists, OfFile, Valid, Locals, LinkTo, Position, Local;
    var g := RefsInFile(t, i)[k];
    RefInFile(files, plan, t, i, k);
    assert RefWritten(files, plan, t, g);
    assert RefRecOk(t, g) by { WrittenRefIsOk(files, plan, t, g); }
    var x := files[i].refs[plan.refs[g].local];
    FileLink(files, plan, t, i, x.enclosing);
    RefLink(files, plan, t, i, Other(x.lambda - 1, plan.refs[g].local));
  }

  /** A range of slots that is one file's names each local index once. */
  lemma {:induction false} GroupPermutes(slots: seq<Slot>, counts: seq<nat>, i: nat, off: nat, n: nat, place: nat -> Key)
    requires Lists(slots, counts) && i < |counts| && n == counts[i] && IsGroup(slots, i, off, n, place)
    ensures Permutes(LocalsAt(slots, off, n), n)
  {
    var s := seq<nat>(n, k requires 0 <= k < n => off + k);
    forall g: nat | g < |slots| ensures slots[g].file == i <==> g in s {
      if off <= g < off + n { assert s[g - off] == g; }
    }
    assert OfFile(slots, s, i);
    LocalsPermute(slots, counts, s, i);
    assert Locals(slots, s) == LocalsAt(slots, off, n);
  }

  /** A record in a file's range is one of the file's own. */
  lemma {:induction false} InGroup(slots: seq<Slot>, counts: seq<nat>, i: nat, off: nat, n: nat, place: nat -> Key, k: nat)
    requires Lists(slots, counts) && IsGroup(slots, i, off, n, place) && k < n
    ensures slots[off + k].file == i < |counts| && slots[off + k].local == LocalsAt(slots, off, n)[k] < counts[i]
  {
    assert slots[off + k] in slots;
  }

  lemma {:induction false} FileHas(files: seq<File>, plan: Plan, t: Tables, i: nat)
    requires Written(files, plan, t) && i < |files|
    ensures var f, r := files[i], t.files[i];
      && FileOk(t, i)
      && r.symN == |f.symbols| && IsIndex(plan.syms, i, t.symByFile, r.symOff, r.symN, SymbolPlace(f))
      && r.impN == |f.imports| && IsGroup(plan.imps, i, r.impOff, r.impN, ImportPlace(f))
      && r.refN == |f.refs| && IsIndex(plan.refs, i, t.refsByFile, r.refOff, r.refN, RefPlace(f))
      && r.expN == |f.exports| && IsGroup(plan.exps, i, r.expOff, r.expN, ExportPlace(f))
      && r.hintN == |f.hints| && IsGroup(plan.hints, i, r.hintOff, r.hintN, HintPlace(f))
  {
    assert FileWritten(files, plan, t, i);
  }

  lemma {:induction false} HintRoundTrips(files: seq<File>, plan: Plan, t: Tables, i: nat, k: nat)
    requires Written(files, plan, t) && Valid(t) && i < |files| && k < t.files[i].hintN
    requires t.files[i].hintOff + t.files[i].hintN <= |plan.hints| && AllBelow(SymbolsInFile(t, i), |plan.syms|)
    ensures var S, local := SymbolsInFile(t, i), LocalsAt(plan.hints, t.files[i].hintOff, t.files[i].hintN)[k];
      local < |files[i].hints| && DecodedHint(t, S, t.files[i].hintOff + k) == StoredHint(files[i].hints[local], Locals(plan.syms, S))
  {
    hide Valid, Locals, LinkTo, Position, Local, Lists, Less, IsFile, FileOk, SymbolsInFile, IsIndex, IsGroup, HintPlace;
    var r := t.files[i];
    FileHas(files, plan, t, i);
    InGroup(plan.hints, HintCounts(files), i, r.hintOff, r.hintN, HintPlace(files[i]), k);
    var h := r.hintOff + k;
    assert HintWritten(files, plan, t, h);
    assert HintOk(t, h) by { WrittenHintIsOk(files, plan, t, h); }
    FileLink(files, plan, t, i, files[i].hints[plan.hints[h].local].scope);
  }

  /** A decoded import is the input's, with its listed names in order. */
  lemma {:induction false} ImportRoundTrips(files: seq<File>, plan: Plan, t: Tables, i: nat, k: nat)
    requires Written(files, plan, t) && Valid(t) && i < |files| && k < t.files[i].impN
    requires t.files[i].impOff + t.files[i].impN <= |plan.imps|
    ensures var local := LocalsAt(plan.imps, t.files[i].impOff, t.files[i].impN)[k];
      local < |files[i].imports| && DecodedImport(t, t.files[i].impOff + k) == StoredImport(files[i].imports[local])
  {
    hide Valid, Lists, Less, IsFile, FileOk, IsIndex, IsGroup, ImportPlace;
    var r := t.files[i];
    FileHas(files, plan, t, i);
    InGroup(plan.imps, ImportCounts(files), i, r.impOff, r.impN, ImportPlace(files[i]), k);
    var h := r.impOff + k;
    assert ImportWritten(files, plan, t, h);
    assert ImportOk(t, h) by { WrittenImportIsOk(files, plan, t, h); }
    var x, names := files[i].imports[plan.imps[h].local], DecodedImport(t, h).names;
    forall j | 0 <= j < |x.names| ensures names[j] == x.names[j] {
      var pair := t.impNames[t.imps[h].namesOff + j];
      assert IsPair(t.strs, pair, x.names[j].name, x.names[j].alias);
      assert names[j] == Paired(t.strs, pair);
    }
    assert names == x.names;
  }

  lemma {:induction false} ExportRoundTrips(files: seq<File>, plan: Plan, t: Tables, i: nat, k: nat)
    requires Written(files, plan, t) && Valid(t) && i < |files| && k < t.files[i].expN
    requires t.files[i].expOff + t.files[i].expN <= |plan.exps|
    ensures var local := LocalsAt(plan.exps, t.files[i].expOff, t.files[i].expN)[k];
      local < |files[i].exports| && DecodedExport(t, t.files[i].expOff + k) == StoredExport(files[i].exports[local])
  {
    hide Valid, Lists, Less, IsFile, FileOk, IsIndex, IsGroup, ExportPlace;
    var r := t.files[i];
    FileHas(files, plan, t, i);
    InGroup(plan.exps, ExportCounts(files), i, r.expOff, r.expN, ExportPlace(files[i]), k);
    var h := r.expOff + k;
    assert ExportWritten(files, plan, t, h);
    assert ExportOk(t, h) by { WrittenExportIsOk(files, plan, t, h); }
  }

  ghost predicate Sizes(f: File)
  {
    -0x8000_0000_0000_0000 <= f.size < 0x8000_0000_0000_0000 && -0x8000_0000_0000_0000 <= f.mtime < 0x8000_0000_0000_0000
  }

  lemma {:induction false} MetaRoundTrips(files: seq<File>, plan: Plan, t: Tables, i: nat)
    requires Written(files, plan, t) && Valid(t) && i < |files| && Sizes(files[i])
    ensures SameMeta(files[i], Decoded(t, i))
  {
    hide IsIndex, IsGroup, Valid, DecodedSymbol, DecodedImport, DecodedRef, DecodedExport, DecodedHint, Signed64, U64, Bit, FileFlags;
    FileHas(files, plan, t, i);
    assert FileWritten(files, plan, t, i);
    FileBits(files[i]);
    SignedIsSame(files[i].size);
    SignedIsSame(files[i].mtime);
  }

  /** The orders in which file i's records come back. */
  ghost function OrdersOf(files: seq<File>, plan: Plan, t: Tables, i: nat): Orders
    requires Written(files, plan, t) && Valid(t) && i < |files|
  {
    FileHas(files, plan, t, i);
    var r := t.files[i];
    Orders(Locals(plan.syms, SymbolsInFile(t, i)), LocalsAt(plan.imps, r.impOff, r.impN), Locals(plan.refs, RefsInFile(t, i)),
           LocalsAt(plan.exps, r.expOff, r.expN), LocalsAt(plan.hints, r.hintOff, r.hintN))
  }

  lemma {:induction false} OrdersPermute(files: seq<File>, plan: Plan, t: Tables, i: nat)
    requires Written(files, plan, t) && Valid(t) && i < |files|
    ensures var f, o := files[i], OrdersOf(files, plan, t, i);
      && Permutes(o.syms, |f.symbols|) && Permutes(o.imps, |f.imports|) && Permutes(o.refs, |f.refs|)
      && Permutes(o.exps, |f.exports|) && Permutes(o.hints, |f.hints|) && SourceOrder(f, o)
  {
    hide Valid, Permutes, Lists, OfFile, IsGroup, ByKey, Locals, LocalsAt, SymbolPlace, ImportPlace, RefPlace, ExportPlace, HintPlace;
    var f, r := files[i], t.files[i];
    FileHas(files, plan, t, i);
    LocalsPermute(plan.syms, SymbolCounts(files), SymbolsInFile(t, i), i);
    LocalsPermute(plan.refs, RefCounts(files), RefsInFile(t, i), i);
    GroupPermutes(plan.imps, ImportCounts(files), i, r.impOff, r.impN, ImportPlace(f));
    GroupPermutes(plan.exps, ExportCounts(files), i, r.expOff, r.expN, ExportPlace(f));
    GroupPermutes(plan.hints, HintCounts(files), i, r.hintOff, r.hintN, HintPlace(f));
    GroupIsByKey(plan.imps, i, r.impOff, r.impN, ImportPlace(f));
    GroupIsByKey(plan.exps, i, r.expOff, r.expN, ExportPlace(f));
    GroupIsByKey(plan.hints, i, r.hintOff, r.hintN, HintPlace(f));
  }

  lemma {:induction false} GroupIsByKey(slots: seq<Slot>, file: nat, off: nat, n: nat, place: nat -> Key)
    requires IsGroup(slots, file, off, n, place)
    ensures off + n <= |slots| && ByKey(LocalsAt(slots, off, n), place)
  {
  }

  /**
   Decoding undoes encoding: every written file comes back with its metadata, and its symbols, imports, references, exports and
   hints are the input's, each once, in source order, with containers, enclosing symbols, scopes and lambdas pointing where
   they did.
   */
  lemma {:induction false} FileRoundTrips(files: seq<File>, plan: Plan, t: Tables, i: nat)
    requires Written(files, plan, t) && i < |files| && Sizes(files[i])
    ensures Valid(t) && Stored(files[i], Decoded(t, i))
    ensures Returns(files[i], Decoded(t, i))
  {
    hide Valid, DecodedSymbol, DecodedImport, DecodedRef, DecodedExport, DecodedHint;
    hide StoredSymbol, StoredImport, StoredRef, StoredExport, StoredHint, Locals, LocalsAt, Lists, OfFile, ByKey, IsGroup, SourceOrder, Permutes;
    WrittenIsValid(files, plan, t);
    MetaRoundTrips(files, plan, t, i);
    OrdersPermute(files, plan, t, i);
    FileHas(files, plan, t, i);
    FileLink(files, plan, t, i, 0);
    RefLink(files, plan, t, i, 0);
    GroupIsByKey(plan.hints, i, t.files[i].hintOff, t.files[i].hintN, HintPlace(files[i]));
    GroupIsByKey(plan.imps, i, t.files[i].impOff, t.files[i].impN, ImportPlace(files[i]));
    GroupIsByKey(plan.exps, i, t.files[i].expOff, t.files[i].expN, ExportPlace(files[i]));
    var f, d, o := files[i], Decoded(t, i), OrdersOf(files, plan, t, i);
    LinkedReturn(files, plan, t, i);
    GroupsReturn(files, plan, t, i);
    assert StoredBy(f, d, o);
    StoredFollows(f, d, o);
  }

  lemma {:induction false} StoredFollows(f: File, d: File, o: Orders)
    requires StoredBy(f, d, o)
    ensures Returns(f, d)
  {
    hide SourceOrder, FollowsSource, StoredSymbol, StoredImport, StoredRef, StoredExport, StoredHint;
    OrderIsPlain(f, o);
    if Fitting(f) { ReorderedReads(f, d, o); }
  }

  /** Symbols, references and hints come back. */
  lemma {:induction false} LinkedReturn(files: seq<File>, plan: Plan, t: Tables, i: nat)
    requires Written(files, plan, t) && Valid(t) && i < |files|
    requires Permutes(OrdersOf(files, plan, t, i).syms, |files[i].symbols|) && Permutes(OrdersOf(files, plan, t, i).refs, |files[i].refs|)
    requires Permutes(OrdersOf(files, plan, t, i).hints, |files[i].hints|)
    ensures var f, d, o := files[i], Decoded(t, i), OrdersOf(files, plan, t, i);
      && |d.symbols| == |f.symbols| && |d.refs| == |f.refs| && |d.hints| == |f.hints|
      && (forall k: nat :: k < |d.symbols| ==> d.symbols[k] == StoredSymbol(f.symbols[o.syms[k]], o.syms, o.syms[k]))
      && (forall k: nat :: k < |d.refs| ==> d.refs[k] == StoredRef(f.refs[o.refs[k]], o.syms, o.refs, o.refs[k]))
      && (forall k: nat :: k < |d.hints| ==> d.hints[k] == StoredHint(f.hints[o.hints[k]], o.syms))
  {
    hide Valid, DecodedSymbol, DecodedImport, DecodedRef, DecodedExport, DecodedHint;
    hide StoredSymbol, StoredRef, StoredHint, Locals, LocalsAt, Listed, OfFile, ByKey, IsGroup;
    FileHas(files, plan, t, i);
    FileLink(files, plan, t, i, 0);
    RefLink(files, plan, t, i, 0);
    GroupIsByKey(plan.hints, i, t.files[i].hintOff, t.files[i].hintN, HintPlace(files[i]));
    var f, d, o := files[i], Decoded(t, i), OrdersOf(files, plan, t, i);
    forall k: nat | k < |d.symbols| ensures d.symbols[k] == StoredSymbol(f.symbols[o.syms[k]], o.syms, o.syms[k]) {
      SymbolRoundTrips(files, plan, t, i, k);
    }
    forall k: nat | k < |d.refs| ensures d.refs[k] == StoredRef(f.refs[o.refs[k]], o.syms, o.refs, o.refs[k]) {
      RefRoundTrips(files, plan, t, i, k);
    }
    forall k: nat | k < |d.hints| ensures d.hints[k] == StoredHint(f.hints[o.hints[k]], o.syms) { HintRoundTrips(files, plan, t, i, k); }
  }

  /** Imports and exports come back. */
  lemma {:induction false} GroupsReturn(files: seq<File>, plan: Plan, t: Tables, i: nat)
    requires Written(files, plan, t) && Valid(t) && i < |files|
    requires Permutes(OrdersOf(files, plan, t, i).imps, |files[i].imports|) && Permutes(OrdersOf(files, plan, t, i).exps, |files[i].exports|)
    ensures var f, d, o := files[i], Decoded(t, i), OrdersOf(files, plan, t, i);
      && |d.imports| == |f.imports| && |d.exports| == |f.exports|
      && (forall k: nat :: k < |d.imports| ==> d.imports[k] == StoredImport(f.imports[o.imps[k]]))
      && (forall k: nat :: k < |d.exports| ==> d.exports[k] == StoredExport(f.exports[o.exps[k]]))
  {
    hide Valid, DecodedSymbol, DecodedImport, DecodedRef, DecodedExport, DecodedHint;
    hide StoredImport, StoredExport, Locals, LocalsAt, Listed, OfFile, ByKey, IsGroup;
    FileHas(files, plan, t, i);
    GroupIsByKey(plan.imps, i, t.files[i].impOff, t.files[i].impN, ImportPlace(files[i]));
    GroupIsByKey(plan.exps, i, t.files[i].expOff, t.files[i].expN, ExportPlace(files[i]));
    var f, d, o := files[i], Decoded(t, i), OrdersOf(files, plan, t, i);
    forall k: nat | k < |d.imports| ensures d.imports[k] == StoredImport(f.imports[o.imps[k]]) { ImportRoundTrips(files, plan, t, i, k); }
    forall k: nat | k < |d.exports| ensures d.exports[k] == StoredExport(f.exports[o.exps[k]]) { ExportRoundTrips(files, plan, t, i, k); }
  }
}
