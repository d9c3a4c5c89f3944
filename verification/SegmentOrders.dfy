/**
 In which order the records of all files are written: every symbol and reference by name, the rest file by file.
 */
module SegmentOrders {
  import opened Common
  import opened Order
  import opened Sorting
  import opened SegmentRecords
  import opened SegmentTables
  import opened SegmentSearch

  // ---------------------------------------------------------------------------------------------
  // Slots

  /** How many slots there are. */
  function SlotCount(counts: seq<nat>): nat
  {
    if counts == [] then 0 else SlotCount(counts[..|counts| - 1]) + counts[|counts| - 1]
  }

  /** Every slot, file by file. */
  method AllSlots(counts: seq<nat>) returns (slots: seq<Slot>)
    ensures Lists(slots, counts) && |slots| == SlotCount(counts)
  {
    slots := [];
    for i := 0 to |counts|
      invariant Lists(slots, counts[..i]) && |slots| == SlotCount(counts[..i])
    {
      ghost var before := slots;
      for l := 0 to counts[i]
        invariant |slots| == |before| + l && Distinct(slots)
        invariant forall s: Slot :: s in slots <==> s in before || (s.file == i && s.local < l)
      {
        slots := slots + [Slot(i, l)];
      }
      assert counts[..i + 1][..i] == counts[..i];
    }
    assert counts[..|counts|] == counts;
  }

  lemma {:induction false} GlobalIsUnique(slots: seq<Slot>, g: nat)
    requires Distinct(slots) && g < |slots|
    ensures GlobalOf(slots, slots[g]) == g
  {
    assert slots[g] in slots;
  }

  /** The global index of every slot. */
  method Globals(slots: seq<Slot>) returns (global: map<Slot, nat>)
    requires Distinct(slots)
    ensures IsGlobal(slots, global)
  {
    global := map[];
    for g := 0 to |slots|
      invariant forall s :: s in global <==> s in slots[..g]
      invariant forall s :: s in global ==> s in slots && global[s] == GlobalOf(slots, s)
    {
      GlobalIsUnique(slots, g);
      assert slots[..g + 1] == slots[..g] + [slots[g]];
      global := global[slots[g] := g];
    }
    assert slots[..|slots|] == slots;
  }

  ghost predicate IsGlobal(slots: seq<Slot>, global: map<Slot, nat>)
  {
    forall s :: s in slots ==> s in global && global[s] == GlobalOf(slots, s)
  }

  /** One file's global indexes, in the order of a key. */
  method FileIndex(slots: seq<Slot>, counts: seq<nat>, global: map<Slot, nat>, file: nat, key: nat -> Key) returns (s: seq<nat>)
    requires Lists(slots, counts) && IsGlobal(slots, global) && file < |counts|
    ensures OfFile(slots, s, file) && |s| == counts[file] && ByKey(s, key)
  {
    s := [];
    for l := 0 to counts[file]
      invariant |s| == l
      invariant forall k :: 0 <= k < l ==> Slot(file, k) in slots && s[k] == GlobalOf(slots, Slot(file, k))
    {
      assert Slot(file, l) in slots;
      s := s + [global[Slot(file, l)]];
    }
    forall i, j | 0 <= i < j < |s| ensures s[i] != s[j] {
      assert slots[s[i]] == Slot(file, i) && slots[s[j]] == Slot(file, j);
    }
    forall g: nat | g < |slots| ensures slots[g].file == file <==> g in s {
      GlobalIsUnique(slots, g);
      assert slots[g] in slots;
      if slots[g].file == file {
        assert slots[g] == Slot(file, slots[g].local);
        assert s[slots[g].local] == g;
      }
      if g in s {
        var k :| 0 <= k < |s| && s[k] == g;
        assert slots[g] == Slot(file, k);
      }
    }
    assert AllBelow(s, |slots|);
    ghost var unsorted := s;
    s := SortByKey(s, key);
    assert OfFile(slots, s, file) by {
      forall k | 0 <= k < |s| ensures s[k] < |slots| { assert s[k] in unsorted; }
      forall g: nat | g < |slots| ensures slots[g].file == file <==> g in s { assert g in unsorted <==> g in s; }
    }
  }

  /** A local link as a global index. */
  method Link(slots: seq<Slot>, global: map<Slot, nat>, file: nat, local: int, count: nat) returns (g: nat)
    requires IsGlobal(slots, global) && forall k: nat :: k < count ==> Slot(file, k) in slots
    ensures g == LinkTo(slots, file, local, count)
  {
    if 0 <= local < count {
      g := global[Slot(file, local)];
    } else {
      g := NONE32;
    }
  }

  lemma {:induction false} SlotIsListed(files: seq<File>, plan: Plan, g: nat)
    requires Listed(files, plan) && g < |plan.syms|
    ensures plan.syms[g].file < |files| && plan.syms[g].local < |files[plan.syms[g].file].symbols|
    ensures forall k: nat :: k < |files[plan.syms[g].file].symbols| ==> Slot(plan.syms[g].file, k) in plan.syms
  {
    assert plan.syms[g] in plan.syms;
  }

  lemma {:induction false} ImportSlotIsListed(files: seq<File>, plan: Plan, g: nat)
    requires Listed(files, plan) && g < |plan.imps|
    ensures plan.imps[g].file < |files| && plan.imps[g].local < |files[plan.imps[g].file].imports|
  {
    assert plan.imps[g] in plan.imps;
  }

  lemma {:induction false} RefSlotIsListed(files: seq<File>, plan: Plan, g: nat)
    requires Listed(files, plan) && g < |plan.refs|
    ensures plan.refs[g].file < |files| && plan.refs[g].local < |files[plan.refs[g].file].refs|
    ensures forall k: nat :: k < |files[plan.refs[g].file].symbols| ==> Slot(plan.refs[g].file, k) in plan.syms
    ensures forall k: nat :: k < |files[plan.refs[g].file].refs| ==> Slot(plan.refs[g].file, k) in plan.refs
  {
    assert plan.refs[g] in plan.refs;
  }

  lemma {:induction false} ExportSlotIsListed(files: seq<File>, plan: Plan, g: nat)
    requires Listed(files, plan) && g < |plan.exps|
    ensures plan.exps[g].file < |files| && plan.exps[g].local < |files[plan.exps[g].file].exports|
  {
    assert plan.exps[g] in plan.exps;
  }

  lemma {:induction false} HintSlotIsListed(files: seq<File>, plan: Plan, g: nat)
    requires Listed(files, plan) && g < |plan.hints|
    ensures plan.hints[g].file < |files| && plan.hints[g].local < |files[plan.hints[g].file].hints|
    ensures forall k: nat :: k < |files[plan.hints[g].file].symbols| ==> Slot(plan.hints[g].file, k) in plan.syms
  {
    assert plan.hints[g] in plan.hints;
  }

  // ---------------------------------------------------------------------------------------------
  // Records that are kept file by file

  lemma {:induction false} GroupStays(slots: seq<Slot>, more: seq<Slot>, file: nat, off: nat, n: nat, place: nat -> Key)
    requires IsGroup(slots, file, off, n, place) && forall k :: 0 <= k < |more| ==> more[k].file != file
    ensures IsGroup(slots + more, file, off, n, place)
  {
    assert LocalsAt(slots + more, off, n) == LocalsAt(slots, off, n);
  }

  lemma {:induction false} GroupAdded(slots: seq<Slot>, file: nat, order: seq<nat>, place: nat -> Key)
    requires ByKey(order, place) && forall k :: 0 <= k < |slots| ==> slots[k].file != file
    ensures IsGroup(slots + seq(|order|, k requires 0 <= k < |order| => Slot(file, order[k])), file, |slots|, |order|, place)
  {
    var all := slots + seq(|order|, k requires 0 <= k < |order| => Slot(file, order[k]));
    assert LocalsAt(all, |slots|, |order|) == order;
  }

  /** The slots of every file, one file after the other, each file's in its own order, and where each file's begin. */
  method GroupedSlots(counts: seq<nat>, places: seq<nat -> Key>) returns (slots: seq<Slot>, offs: seq<nat>)
    requires |places| == |counts|
    ensures Lists(slots, counts) && |offs| == |counts|
    ensures forall i: nat :: i < |counts| ==> IsGroup(slots, i, offs[i], counts[i], places[i])
  {
    hide IsGroup, ByKey;
    slots, offs := [], [];
    for i := 0 to |counts|
      invariant |offs| == i && Distinct(slots)
      invariant forall s: Slot :: s in slots <==> s.file < i && s.local < counts[s.file]
      invariant forall k: nat :: k < i ==> IsGroup(slots, k, offs[k], counts[k], places[k])
    {
      var order := SortIndexes(counts[i], places[i]);
      var mine := seq(|order|, k requires 0 <= k < |order| => Slot(i, order[k]));
      assert forall k :: 0 <= k < |slots| ==> slots[k] in slots;
      forall k: nat | k < i ensures IsGroup(slots + mine, k, offs[k], counts[k], places[k]) {
        GroupStays(slots, mine, k, offs[k], counts[k], places[k]);
      }
      GroupAdded(slots, i, order, places[i]);
      MineAreAll(mine, order, i, counts[i]);
      offs := offs + [|slots|];
      slots := slots + mine;
    }
  }

  lemma {:induction false} MineAreAll(mine: seq<Slot>, order: seq<nat>, file: nat, n: nat)
    requires Permutes(order, n) && |mine| == n && forall k :: 0 <= k < n ==> mine[k] == Slot(file, order[k])
    ensures Distinct(mine) && forall s: Slot :: s in mine <==> s.file == file && s.local < n
  {
    forall s: Slot | s.file == file && s.local < n ensures s in mine {
      assert s.local in order;
      var k :| 0 <= k < n && order[k] == s.local;
      assert mine[k] == s;
    }
  }

  function ImportPlaces(files: seq<File>): (p: seq<nat -> Key>)
    ensures |p| == |files| && forall i :: 0 <= i < |p| ==> p[i] == ImportPlace(files[i])
  {
    seq(|files|, i requires 0 <= i < |files| => ImportPlace(files[i]))
  }

  function ExportPlaces(files: seq<File>): (p: seq<nat -> Key>)
    ensures |p| == |files| && forall i :: 0 <= i < |p| ==> p[i] == ExportPlace(files[i])
  {
    seq(|files|, i requires 0 <= i < |files| => ExportPlace(files[i]))
  }

  function HintPlaces(files: seq<File>): (p: seq<nat -> Key>)
    ensures |p| == |files| && forall i :: 0 <= i < |p| ==> p[i] == HintPlace(files[i])
  {
    seq(|files|, i requires 0 <= i < |files| => HintPlace(files[i]))
  }

  /** Where each file's imports, exports and hints begin. */
  datatype Starts = Starts(imps: seq<nat>, exps: seq<nat>, hints: seq<nat>)

  ghost predicate StartsAt(files: seq<File>, plan: Plan, starts: Starts, i: nat)
    requires i < |files|
  {
    && |starts.imps| == |files| && |starts.exps| == |files| && |starts.hints| == |files|
    && IsGroup(plan.imps, i, starts.imps[i], |files[i].imports|, ImportPlace(files[i]))
    && IsGroup(plan.exps, i, starts.exps[i], |files[i].exports|, ExportPlace(files[i]))
    && IsGroup(plan.hints, i, starts.hints[i], |files[i].hints|, HintPlace(files[i]))
  }

  // ---------------------------------------------------------------------------------------------
  // Keys

  function SymbolAt(files: seq<File>, s: Slot): Option<Symbol>
  {
    if s.file < |files| && s.local < |files[s.file].symbols| then Some(files[s.file].symbols[s.local]) else None
  }

  function RefAt(files: seq<File>, s: Slot): Option<Ref>
  {
    if s.file < |files| && s.local < |files[s.file].refs| then Some(files[s.file].refs[s.local]) else None
  }

  const NO_KEY: Key := []

  function WholeKey(x: Ref, file: nat): Key
  {
    [Name(x.name), Name(x.qualifier), Num(file), Num(x.line), Num(x.col), Num(x.kind)]
  }

  /** Symbols sort by name, file and line. */
  function SymbolKey(files: seq<File>): Slot -> Key
  {
    (s: Slot) => match SymbolAt(files, s) case None => NO_KEY case Some(x) => [Name(x.name), Num(s.file), Num(x.line)]
  }

  /** References sort by name, qualifier, file, line, column and kind. */
  function RefKey(files: seq<File>): Slot -> Key
  {
    (s: Slot) => match RefAt(files, s) case None => NO_KEY case Some(x) => WholeKey(x, s.file)
  }

  /** Within a file, symbols sort by line and references by line and column, ties by index. */
  function SymbolLine(files: seq<File>, plan: Plan): nat -> Key
  {
    (g: nat) => if g >= |plan.syms| then NO_KEY
                else match SymbolAt(files, plan.syms[g]) case None => NO_KEY case Some(x) => [Num(x.line), Num(g)]
  }

  function RefLine(files: seq<File>, plan: Plan): nat -> Key
  {
    (g: nat) => if g >= |plan.refs| then NO_KEY
                else match RefAt(files, plan.refs[g]) case None => NO_KEY case Some(x) => [Num(x.line), Num(x.col), Num(g)]
  }

  lemma {:induction false} FirstNameDecides(a: Key, b: Key)
    requires a != [] && b != [] && a[0].Name? && b[0].Name? && !KeyBefore(b, a)
    ensures AtMost(a[0].s, b[0].s)
  {
    Total(a[0].s, b[0].s);
  }

  lemma {:induction false} NamesCompare(a: Str, i: int, b: Str, j: int)
    ensures !KeyBefore([Name(b), Num(j)], [Name(a), Num(i)]) && i != j ==> Less(a, b) || (a == b && i < j)
    ensures !KeyBefore([Name(b)], [Name(a)]) && a != b ==> Less(a, b)
  {
    TwoParts([Name(b), Num(j)], [Name(a), Num(i)]);
    Total(a, b);
  }

  lemma {:induction false} SymbolKeysCompare(a: Str, i: int, l: int, b: Str, j: int, m: int)
    requires !KeyBefore([Name(b), Num(j), Num(m)], [Name(a), Num(i), Num(l)])
    ensures Less(a, b) || (a == b && (i < j || (i == j && l <= m)))
  {
    hide Less;
    KeysJoin([Name(b)], [Num(j), Num(m)], [Name(a)], [Num(i), Num(l)]);
    assert [Name(b)] + [Num(j), Num(m)] == [Name(b), Num(j), Num(m)] && [Name(a)] + [Num(i), Num(l)] == [Name(a), Num(i), Num(l)];
    TwoParts([Num(j), Num(m)], [Num(i), Num(l)]);
    NamesCompare(a, 0, b, 0);
  }

  lemma {:induction false} RefKeysCompare(x: Ref, i: nat, y: Ref, j: nat)
    requires !KeyBefore(WholeKey(y, j), WholeKey(x, i))
    ensures Less(x.name, y.name) || (x.name == y.name && (Less(x.qualifier, y.qualifier) || (x.qualifier == y.qualifier &&
              (i < j || (i == j && (x.line < y.line || (x.line == y.line && (x.col < y.col || (x.col == y.col && x.kind <= y.kind)))))))))
  {
    hide Less, KeyBefore;
    var p, q := [Num(j), Num(y.line), Num(y.col), Num(y.kind)], [Num(i), Num(x.line), Num(x.col), Num(x.kind)];
    assert WholeKey(y, j) == [Name(y.name)] + ([Name(y.qualifier)] + p) && WholeKey(x, i) == [Name(x.name)] + ([Name(x.qualifier)] + q);
    KeysJoin([Name(y.name)], [Name(y.qualifier)] + p, [Name(x.name)], [Name(x.qualifier)] + q);
    KeysJoin([Name(y.qualifier)], p, [Name(x.qualifier)], q);
    NamesCompare(x.name, 0, y.name, 0);
    NamesCompare(x.qualifier, 0, y.qualifier, 0);
    var r, s := [Num(y.col), Num(y.kind)], [Num(x.col), Num(x.kind)];
    assert p == [Num(j), Num(y.line)] + r && q == [Num(i), Num(x.line)] + s;
    KeysJoin([Num(j), Num(y.line)], r, [Num(i), Num(x.line)], s);
    TwoParts([Num(j), Num(y.line)], [Num(i), Num(x.line)]);
    TwoParts(r, s);
  }

  lemma {:induction false} NamesAscend(files: seq<File>, plan: Plan)
    requires Listed(files, plan) && ByKey(plan.syms, SymbolKey(files))
    ensures forall g, h :: 0 <= g < h < |plan.syms| ==> AtMost(NameAt(files, plan.syms[g]), NameAt(files, plan.syms[h]))
  {
    hide KeyBefore, AtMost, Lists;
    forall g, h | 0 <= g < h < |plan.syms| ensures AtMost(NameAt(files, plan.syms[g]), NameAt(files, plan.syms[h])) {
      SlotIsListed(files, plan, g);
      SlotIsListed(files, plan, h);
      assert !KeyBefore(SymbolKey(files)(plan.syms[h]), SymbolKey(files)(plan.syms[g]));
      FirstNameDecides(SymbolKey(files)(plan.syms[g]), SymbolKey(files)(plan.syms[h]));
    }
  }

  // ---------------------------------------------------------------------------------------------
  // One file's symbols and references

  lemma {:induction false} IndexAppended(slots: seq<Slot>, file: nat, list: seq<nat>, mine: seq<nat>, place: nat -> Key)
    requires OfFile(slots, mine, file) && ByKey(Locals(slots, mine), place)
    ensures IsIndex(slots, file, list + mine, |list|, |mine|, place)
  {
    assert (list + mine)[|list|..|list| + |mine|] == mine;
  }

  lemma {:induction false} IndexStays(slots: seq<Slot>, file: nat, a: seq<nat>, b: seq<nat>, off: nat, n: nat, place: nat -> Key)
    requires IsIndex(slots, file, a, off, n, place) && a <= b
    ensures IsIndex(slots, file, b, off, n, place)
  {
    assert b[off..off + n] == a[off..off + n];
  }

  lemma {:induction false} OfFileIsBelow(slots: seq<Slot>, s: seq<nat>, file: nat)
    requires OfFile(slots, s, file)
    ensures AllBelow(s, |slots|)
  {
  }

  /** In line order, ties by global index, symbols follow their lines and names. */
  lemma {:induction false} SymbolsFollow(files: seq<File>, plan: Plan, i: nat, s: seq<nat>)
    requires Listed(files, plan) && i < |files| && OfFile(plan.syms, s, i) && ByKey(s, SymbolLine(files, plan)) && ByKey(plan.syms, SymbolKey(files))
    ensures ByKey(Locals(plan.syms, s), SymbolPlace(files[i]))
  {
    hide KeyBefore, Lists;
    var locals, place, f := Locals(plan.syms, s), SymbolPlace(files[i]), files[i];
    forall j, k | 0 <= j < k < |s| ensures !KeyBefore(place(locals[k]), place(locals[j])) {
      assert s[j] in s && s[k] in s;
      SlotIsListed(files, plan, s[j]);
      SlotIsListed(files, plan, s[k]);
      var x, y := f.symbols[locals[j]], f.symbols[locals[k]];
      assert !KeyBefore([Num(y.line), Num(s[k])], [Num(x.line), Num(s[j])]) by {
        assert !KeyBefore(SymbolLine(files, plan)(s[k]), SymbolLine(files, plan)(s[j]));
      }
      assert s[j] < s[k] ==> !KeyBefore([Name(y.name), Num(i), Num(y.line)], [Name(x.name), Num(i), Num(x.line)]) by {
        if s[j] < s[k] { assert !KeyBefore(SymbolKey(files)(plan.syms[s[k]]), SymbolKey(files)(plan.syms[s[j]])); }
      }
      SymbolsCompare(x, s[j], y, s[k], i);
    }
  }

  lemma {:induction false} SymbolsCompare(x: Symbol, a: nat, y: Symbol, b: nat, file: nat)
    requires a != b && !KeyBefore([Num(y.line), Num(b)], [Num(x.line), Num(a)])
    requires a < b ==> !KeyBefore([Name(y.name), Num(file), Num(y.line)], [Name(x.name), Num(file), Num(x.line)])
    ensures !KeyBefore([Num(y.line), Name(y.name)], [Num(x.line), Name(x.name)])
  {
    TwoParts([Num(y.line), Num(b)], [Num(x.line), Num(a)]);
    TwoParts([Num(y.line), Name(y.name)], [Num(x.line), Name(x.name)]);
    Irreflexive(x.name);
  }

  lemma {:induction false} RefsFollow(files: seq<File>, plan: Plan, i: nat, s: seq<nat>)
    requires Listed(files, plan) && i < |files| && OfFile(plan.refs, s, i) && ByKey(s, RefLine(files, plan)) && ByKey(plan.refs, RefKey(files))
    ensures ByKey(Locals(plan.refs, s), RefPlace(files[i]))
  {
    hide KeyBefore, Lists;
    var locals, place, f := Locals(plan.refs, s), RefPlace(files[i]), files[i];
    forall j, k | 0 <= j < k < |s| ensures !KeyBefore(place(locals[k]), place(locals[j])) {
      assert s[j] in s && s[k] in s;
      RefSlotIsListed(files, plan, s[j]);
      RefSlotIsListed(files, plan, s[k]);
      var x, y := f.refs[locals[j]], f.refs[locals[k]];
      assert !KeyBefore([Num(y.line), Num(y.col), Num(s[k])], [Num(x.line), Num(x.col), Num(s[j])]) by {
        assert !KeyBefore(RefLine(files, plan)(s[k]), RefLine(files, plan)(s[j]));
      }
      assert s[j] < s[k] ==> !KeyBefore(WholeKey(y, i), WholeKey(x, i)) by {
        if s[j] < s[k] { assert !KeyBefore(RefKey(files)(plan.refs[s[k]]), RefKey(files)(plan.refs[s[j]])); }
      }
      RefsCompare(x, s[j], y, s[k], i);
    }
  }

  lemma {:induction false} RefsCompare(x: Ref, a: nat, y: Ref, b: nat, file: nat)
    requires a != b && !KeyBefore([Num(y.line), Num(y.col), Num(b)], [Num(x.line), Num(x.col), Num(a)])
    requires a < b ==> !KeyBefore(WholeKey(y, file), WholeKey(x, file))
    ensures !KeyBefore([Num(y.line), Num(y.col), Name(y.name), Name(y.qualifier), Num(y.kind)],
                       [Num(x.line), Num(x.col), Name(x.name), Name(x.qualifier), Num(x.kind)])
  {
    hide KeyBefore;
    var p, q := [Num(y.line), Num(y.col)], [Num(x.line), Num(x.col)];
    var m, n := [Name(y.name), Name(y.qualifier)], [Name(x.name), Name(x.qualifier)];
    assert [Num(y.line), Num(y.col), Num(b)] == p + [Num(b)] && [Num(x.line), Num(x.col), Num(a)] == q + [Num(a)];
    KeysJoin(p, [Num(b)], q, [Num(a)]);
    assert WholeKey(y, file) == m + [Num(file), Num(y.line), Num(y.col), Num(y.kind)];
    assert WholeKey(x, file) == n + [Num(file), Num(x.line), Num(x.col), Num(x.kind)];
    var r, s := [Num(file), Num(y.line), Num(y.col), Num(y.kind)], [Num(file), Num(x.line), Num(x.col), Num(x.kind)];
    KeysJoin(m, r, n, s);
    assert r == [Num(file)] + p + [Num(y.kind)] && s == [Num(file)] + q + [Num(x.kind)];
    assert [Num(y.line), Num(y.col), Name(y.name), Name(y.qualifier), Num(y.kind)] == p + (m + [Num(y.kind)]);
    assert [Num(x.line), Num(x.col), Name(x.name), Name(x.qualifier), Num(x.kind)] == q + (n + [Num(x.kind)]);
    KeysJoin(p, m + [Num(y.kind)], q, n + [Num(x.kind)]);
    KeysJoin(m, [Num(y.kind)], n, [Num(x.kind)]);
    KeysJoin([Num(file)] + p, [Num(y.kind)], [Num(file)] + q, [Num(x.kind)]);
    OneNumber(b, a);
  }

  // ---------------------------------------------------------------------------------------------
  // Index lists

  function EnclosingKey(files: seq<File>, plan: Plan, recs: seq<RefRec>): nat -> Key
  {
    (g: nat) => if g >= |recs| || g >= |plan.refs| then NO_KEY
                else match RefAt(files, plan.refs[g]) case None => NO_KEY case Some(x) => [Num(recs[g].enclosing), Num(x.line), Num(g)]
  }

  /** Which records each symbol's references are: by enclosing symbol, then line. */
  method EnclosingIndex(files: seq<File>, plan: Plan, recs: seq<RefRec>) returns (s: seq<nat>)
    requires |recs| == |plan.refs|
    ensures AllBelow(s, |recs|) && Distinct(s) && ByKey(s, EnclosingKey(files, plan, recs))
    ensures forall g: nat :: g < |recs| ==> (g in s <==> recs[g].enclosing != NONE32)
  {
    var all: seq<nat> := [];
    for g := 0 to |recs|
      invariant forall k :: 0 <= k < |all| ==> all[k] < g
      invariant Distinct(all)
      invariant forall x: nat :: x in all <==> x < g && recs[x].enclosing != NONE32
    {
      if recs[g].enclosing != NONE32 { all := all + [g]; }
    }
    s := SortByKey(all, EnclosingKey(files, plan, recs));
    assert forall k :: 0 <= k < |s| ==> s[k] in all;
  }

  /** a is before b by name, then by number. */
  predicate NamedBefore(name: nat -> Str, a: nat, b: nat)
  {
    Less(name(a), name(b)) || (name(a) == name(b) && a < b)
  }

  /** The indexes 0..n by name. */
  method IndexByName(n: nat, name: nat -> Str) returns (s: seq<nat>)
    ensures Permutes(s, n) && forall i, j :: 0 <= i < j < n ==> NamedBefore(name, s[i], s[j])
  {
    var key := (i: nat) => [Name(name(i)), Num(i)];
    s := SortIndexes(n, key);
    forall i, j | 0 <= i < j < n ensures NamedBefore(name, s[i], s[j]) {
      NamesCompare(name(s[i]), s[i], name(s[j]), s[j]);
      assert !KeyBefore(key(s[j]), key(s[i]));
    }
  }

  function PackageOf(files: seq<File>): nat -> Str
  {
    (i: nat) => if i < |files| then files[i].package else []
  }

  function ImportPathOf(files: seq<File>, plan: Plan): nat -> Str
  {
    (g: nat) =>
      if g < |plan.imps| && plan.imps[g].file < |files| && plan.imps[g].local < |files[plan.imps[g].file].imports|
      then files[plan.imps[g].file].imports[plan.imps[g].local].path
      else []
  }
}
