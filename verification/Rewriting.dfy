/**
 Writing decoded files again: decoding what was encoded from a decoded file gives the original facts once more, and moves
 nothing but records that tie.
 */
module Rewriting {
  import opened Common
  import opened Order
  import opened Sorting
  import opened SegmentRecords
  import opened SegmentTables
  import opened SegmentRoundTrip

  // ---------------------------------------------------------------------------------------------
  // Orders one after the other

  /** First o, then p. */
  function Composed(o: seq<nat>, p: seq<nat>): (r: seq<nat>)
    requires AllBelow(p, |o|)
    ensures |r| == |p|
  {
    seq<nat>(|p|, k requires 0 <= k < |p| => o[p[k]])
  }

  function Identity(n: nat): (r: seq<nat>)
    ensures |r| == n
  {
    seq<nat>(n, k => k)
  }

  lemma {:induction false} IdentityPermutes(n: nat)
    ensures Permutes(Identity(n), n)
  {
    forall l: nat | l < n ensures l in Identity(n) { assert Identity(n)[l] == l; }
  }

  lemma {:induction false} ComposedPermutes(o: seq<nat>, p: seq<nat>, n: nat)
    requires Permutes(o, n) && Permutes(p, n)
    ensures Permutes(Composed(o, p), n)
  {
    var r := Composed(o, p);
    forall l: nat | l < n ensures l in r {
      assert l in o;
      var j :| 0 <= j < n && o[j] == l;
      assert j in p;
      var k :| 0 <= k < n && p[k] == j;
      assert r[k] == l;
    }
  }

  lemma {:induction false} PlaceIs(o: seq<nat>, n: nat, k: nat)
    requires Permutes(o, n) && k < n
    ensures Position(o, o[k]) == Some(k)
  {
    assert o[k] in o;
  }

  /** Where p's elements are in o. */
  function Across(o: seq<nat>, p: seq<nat>): (q: seq<nat>)
    requires forall k :: 0 <= k < |p| ==> p[k] in o
    ensures |q| == |p|
  {
    seq<nat>(|p|, k requires 0 <= k < |p| => Position(o, p[k]).value)
  }

  lemma {:induction false} AcrossComposes(o: seq<nat>, p: seq<nat>, n: nat)
    requires Permutes(o, n) && Permutes(p, n)
    ensures forall k :: 0 <= k < |p| ==> p[k] in o
    ensures Permutes(Across(o, p), n) && Composed(o, Across(o, p)) == p
  {
    var q := Across(o, p);
    forall k | 0 <= k < n ensures q[k] < n && o[q[k]] == p[k] {}
    forall i, j | 0 <= i < j < n ensures q[i] != q[j] { assert p[i] != p[j]; }
    forall l: nat | l < n ensures l in q {
      assert o[l] in p;
      var k :| 0 <= k < n && p[k] == o[l];
      PlaceIs(o, n, l);
      assert q[k] == l;
    }
  }

  /** Following a link through both orders is following it through their composition. */
  lemma {:induction false} MovedTwice(o: seq<nat>, p: seq<nat>, n: nat, x: int)
    requires Permutes(o, n) && Permutes(p, n)
    ensures Moved(p, Moved(o, x)) == Moved(Composed(o, p), x)
  {
    var r := Composed(o, p);
    ComposedPermutes(o, p, n);
    if 0 <= x < n {
      assert x in o;
      var j := Position(o, x).value;
      assert j in p;
      var k := Position(p, j).value;
      assert r[k] == x;
      PlaceIs(r, n, k);
    } else if x >= n {
      assert Position(o, x).None? && Position(r, x).None?;
    }
  }

  /** A link that is not to the record itself is still none after moving. */
  lemma {:induction false} OtherMoves(o: seq<nat>, n: nat, x: int, k: nat)
    requires Permutes(o, n) && k < n
    ensures Other(Moved(o, Other(x, o[k])), k) == Moved(o, Other(x, o[k]))
  {
    PlaceIs(o, n, k);
  }

  lemma {:induction false} SymbolTwice(s: Symbol, o: seq<nat>, p: seq<nat>, n: nat, k: nat)
    requires Permutes(o, n) && Permutes(p, n) && k < n
    ensures StoredSymbol(StoredSymbol(s, o, o[p[k]]), p, p[k]) == StoredSymbol(s, Composed(o, p), o[p[k]])
  {
    hide Moved, Permutes;
    InBounds(o, n);
    InBounds(p, n);
    OtherMoves(o, n, s.container - 1, p[k]);
    MovedTwice(o, p, n, Other(s.container - 1, o[p[k]]));
  }

  lemma {:induction false} InBounds(o: seq<nat>, n: nat)
    requires Permutes(o, n)
    ensures |o| == n && forall k :: 0 <= k < n ==> o[k] < n
  {
  }

  lemma {:induction false} RefTwice(x: Ref, so: seq<nat>, sp: seq<nat>, m: nat, o: seq<nat>, p: seq<nat>, n: nat, k: nat)
    requires Permutes(so, m) && Permutes(sp, m) && Permutes(o, n) && Permutes(p, n) && k < n
    ensures StoredRef(StoredRef(x, so, o, o[p[k]]), sp, p, p[k]) == StoredRef(x, Composed(so, sp), Composed(o, p), o[p[k]])
  {
    hide Moved, Permutes;
    InBounds(o, n);
    InBounds(p, n);
    OtherMoves(o, n, x.lambda - 1, p[k]);
    MovedTwice(o, p, n, Other(x.lambda - 1, o[p[k]]));
    MovedTwice(so, sp, m, x.enclosing);
  }

  lemma {:induction false} HintTwice(h: Hint, o: seq<nat>, p: seq<nat>, n: nat)
    requires Permutes(o, n) && Permutes(p, n)
    ensures StoredHint(StoredHint(h, o), p) == StoredHint(h, Composed(o, p))
  {
    hide Moved, Permutes;
    MovedTwice(o, p, n, h.scope);
  }

  /** First o, then p, sort by sort. */
  ghost function Both(a: File, o: Orders, p: Orders): Orders
    requires AllPermute(a, o) && AllPermute(a, p)
  {
    Orders(Composed(o.syms, p.syms), Composed(o.imps, p.imps), Composed(o.refs, p.refs), Composed(o.exps, p.exps), Composed(o.hints, p.hints))
  }

  ghost predicate AllPermute(a: File, o: Orders)
  {
    && Permutes(o.syms, |a.symbols|) && Permutes(o.imps, |a.imports|) && Permutes(o.refs, |a.refs|)
    && Permutes(o.exps, |a.exports|) && Permutes(o.hints, |a.hints|)
  }

  lemma {:induction false} AllInBounds(a: File, o: Orders)
    requires AllPermute(a, o)
    ensures |o.syms| == |a.symbols| && forall k :: 0 <= k < |o.syms| ==> o.syms[k] < |o.syms|
    ensures |o.imps| == |a.imports| && forall k :: 0 <= k < |o.imps| ==> o.imps[k] < |o.imps|
    ensures |o.refs| == |a.refs| && forall k :: 0 <= k < |o.refs| ==> o.refs[k] < |o.refs|
    ensures |o.exps| == |a.exports| && forall k :: 0 <= k < |o.exps| ==> o.exps[k] < |o.exps|
    ensures |o.hints| == |a.hints| && forall k :: 0 <= k < |o.hints| ==> o.hints[k] < |o.hints|
  {
  }

  lemma {:induction false} BothPermute(a: File, o: Orders, p: Orders)
    requires AllPermute(a, o) && AllPermute(a, p)
    ensures AllPermute(a, Both(a, o, p))
  {
    hide Permutes, Composed;
    ComposedPermutes(o.syms, p.syms, |a.symbols|);
    ComposedPermutes(o.imps, p.imps, |a.imports|);
    ComposedPermutes(o.refs, p.refs, |a.refs|);
    ComposedPermutes(o.exps, p.exps, |a.exports|);
    ComposedPermutes(o.hints, p.hints, |a.hints|);
  }

  /** Encoding and decoding twice is a re-ordering of the original facts. */
  lemma {:induction false} ReorderedTwice(a: File, b: File, c: File, o: Orders, p: Orders)
    requires Reordered(a, b, o) && Reordered(b, c, p)
    ensures AllPermute(a, o) && AllPermute(a, p) && Reordered(a, c, Both(a, o, p))
  {
    hide StoredSymbol, StoredRef, StoredHint, Permutes, Moved, Composed;
    var q := Both(a, o, p);
    BothPermute(a, o, p);
    AllInBounds(a, o);
    AllInBounds(a, p);
    AllInBounds(a, q);
    forall k: nat | k < |c.symbols| ensures c.symbols[k] == StoredSymbol(a.symbols[q.syms[k]], q.syms, q.syms[k]) {
      ComposedAt(o.syms, p.syms, |a.symbols|, k);
      SymbolTwice(a.symbols[q.syms[k]], o.syms, p.syms, |a.symbols|, k);
    }
    forall k: nat | k < |c.imports| ensures c.imports[k] == StoredImport(a.imports[q.imps[k]]) { ComposedAt(o.imps, p.imps, |a.imports|, k); }
    forall k: nat | k < |c.refs| ensures c.refs[k] == StoredRef(a.refs[q.refs[k]], q.syms, q.refs, q.refs[k]) {
      ComposedAt(o.refs, p.refs, |a.refs|, k);
      RefTwice(a.refs[q.refs[k]], o.syms, p.syms, |a.symbols|, o.refs, p.refs, |a.refs|, k);
    }
    forall k: nat | k < |c.exports| ensures c.exports[k] == StoredExport(a.exports[q.exps[k]]) { ComposedAt(o.exps, p.exps, |a.exports|, k); }
    forall k: nat | k < |c.hints| ensures c.hints[k] == StoredHint(a.hints[q.hints[k]], q.syms) {
      ComposedAt(o.hints, p.hints, |a.hints|, k);
      HintTwice(a.hints[q.hints[k]], o.syms, p.syms, |a.symbols|);
    }
  }

  lemma {:induction false} ComposedAt(o: seq<nat>, p: seq<nat>, n: nat, k: nat)
    requires Permutes(o, n) && Permutes(p, n) && k < n
    ensures p[k] < n && Composed(o, p)[k] == o[p[k]] < n
  {
  }

  /** Two re-orderings of one file are re-orderings of each other. */
  lemma {:induction false} ReorderedAcross(a: File, b: File, c: File, o: Orders, p: Orders, q: Orders)
    requires Reordered(a, b, o) && Reordered(a, c, p) && AllPermute(a, q) && Both(a, o, q) == p
    ensures Reordered(b, c, q)
  {
    hide StoredSymbol, StoredRef, StoredHint, Permutes, Moved, Composed;
    AllInBounds(a, o);
    AllInBounds(a, p);
    AllInBounds(a, q);
    forall k: nat | k < |c.symbols| ensures c.symbols[k] == StoredSymbol(b.symbols[q.syms[k]], q.syms, q.syms[k]) {
      ComposedAt(o.syms, q.syms, |a.symbols|, k);
      SymbolTwice(a.symbols[p.syms[k]], o.syms, q.syms, |a.symbols|, k);
    }
    forall k: nat | k < |c.imports| ensures c.imports[k] == StoredImport(b.imports[q.imps[k]]) { ComposedAt(o.imps, q.imps, |a.imports|, k); }
    forall k: nat | k < |c.refs| ensures c.refs[k] == StoredRef(b.refs[q.refs[k]], q.syms, q.refs, q.refs[k]) {
      ComposedAt(o.refs, q.refs, |a.refs|, k);
      RefTwice(a.refs[p.refs[k]], o.syms, q.syms, |a.symbols|, o.refs, q.refs, |a.refs|, k);
    }
    forall k: nat | k < |c.exports| ensures c.exports[k] == StoredExport(b.exports[q.exps[k]]) { ComposedAt(o.exps, q.exps, |a.exports|, k); }
    forall k: nat | k < |c.hints| ensures c.hints[k] == StoredHint(b.hints[q.hints[k]], q.syms) {
      ComposedAt(o.hints, q.hints, |a.hints|, k);
      HintTwice(a.hints[p.hints[k]], o.syms, q.syms, |a.symbols|);
    }
  }

  ghost function AllAcross(a: File, o: Orders, p: Orders): (q: Orders)
    requires AllPermute(a, o) && AllPermute(a, p)
    ensures AllPermute(a, q) && Both(a, o, q) == p
  {
    AcrossComposes(o.syms, p.syms, |a.symbols|);
    AcrossComposes(o.imps, p.imps, |a.imports|);
    AcrossComposes(o.refs, p.refs, |a.refs|);
    AcrossComposes(o.exps, p.exps, |a.exports|);
    AcrossComposes(o.hints, p.hints, |a.hints|);
    Orders(Across(o.syms, p.syms), Across(o.imps, p.imps), Across(o.refs, p.refs), Across(o.exps, p.exps), Across(o.hints, p.hints))
  }

  // ---------------------------------------------------------------------------------------------
  // Sorting what is sorted

  /** Distinct numbers below a limit are at most that many. */
  lemma {:induction false} FewBelow(s: seq<nat>, limit: nat)
    requires Distinct(s) && forall k :: 0 <= k < |s| ==> s[k] < limit
    ensures |s| <= limit
    decreases limit
  {
    if s != [] {
      assert s[0] < limit;
      var i := if exists k :: 0 <= k < |s| && s[k] == limit - 1 then Place(s, limit - 1) else 0;
      var rest := s[..i] + s[i + 1..];
      forall k | 0 <= k < |rest| ensures rest[k] < limit - 1 {
        var j := if k < i then k else k + 1;
        assert rest[k] == s[j] && j != i;
      }
      FewBelow(rest, limit - 1);
    }
  }

  ghost function Place(s: seq<nat>, x: nat): (i: nat)
    requires exists k :: 0 <= k < |s| && s[k] == x
    ensures i < |s| && s[i] == x
  {
    var k :| 0 <= k < |s| && s[k] == x;
    k
  }

  /** Two sorted orders of the same elements have the same keys in the same places. */
  lemma {:induction false} SortedAgree(o: seq<nat>, p: seq<nat>, n: nat, key: nat -> Key, k: nat)
    requires Permutes(o, n) && Permutes(p, n) && ByKey(o, key) && ByKey(p, key) && k < n
    ensures key(o[k]) == key(p[k])
  {
    hide KeyBefore;
    KeyTotal(key(o[k]), key(p[k]));
    NotBefore(o, p, n, key, k);
    NotBefore(p, o, n, key, k);
  }

  /** Were o's k-th key smaller, o's first k + 1 elements would all be among p's first k. */
  lemma {:induction false} NotBefore(o: seq<nat>, p: seq<nat>, n: nat, key: nat -> Key, k: nat)
    requires Permutes(o, n) && Permutes(p, n) && ByKey(o, key) && ByKey(p, key) && k < n
    ensures !KeyBefore(key(o[k]), key(p[k]))
  {
    hide KeyBefore;
    if KeyBefore(key(o[k]), key(p[k])) {
      AcrossComposes(p, o, n);
      var q := Across(p, o);
      forall i | 0 <= i <= k ensures q[i] < k {
        assert p[q[i]] == Composed(p, q)[i] == o[i];
        NotAfter(o, key, i, k, key(p[k]));
        SmallerIsEarlier(p, key, k, q[i]);
      }
      FewBelow(q[..k + 1], k);
    }
  }

  lemma {:induction false} NotAfter(o: seq<nat>, key: nat -> Key, i: nat, k: nat, x: Key)
    requires ByKey(o, key) && i <= k < |o| && KeyBefore(key(o[k]), x)
    ensures KeyBefore(key(o[i]), x)
  {
    hide KeyBefore;
    KeyTotal(key(o[i]), key(o[k]));
    if KeyBefore(key(o[i]), key(o[k])) { KeyTransitive(key(o[i]), key(o[k]), x); }
  }

  lemma {:induction false} SmallerIsEarlier(p: seq<nat>, key: nat -> Key, k: nat, j: nat)
    requires ByKey(p, key) && k < |p| && j < |p| && KeyBefore(key(p[j]), key(p[k]))
    ensures j < k
  {
    hide KeyBefore;
    KeyTotal(key(p[j]), key(p[k]));
  }

  // ---------------------------------------------------------------------------------------------
  // Exact ties

  /** Symbols and references have the same source places, and imports, exports and hints stay where they are. */
  ghost predicate SamePlaces(b: File, c: File, q: Orders)
  {
    && |b.symbols| == |c.symbols| && |b.refs| == |c.refs|
    && (forall k: nat :: k < |b.symbols| ==> SymbolPlace(b)(k) == SymbolPlace(c)(k))
    && (forall k: nat :: k < |b.refs| ==> RefPlace(b)(k) == RefPlace(c)(k))
    && q.imps == Identity(|b.imports|) && q.exps == Identity(|b.exports|) && q.hints == Identity(|b.hints|)
  }

  ghost predicate TiedBy(b: File, c: File, q: Orders)
  {
    Reordered(b, c, q) && SamePlaces(b, c, q)
  }

  /** c is b up to a permutation of symbols, and of references, that tie in their order. */
  ghost predicate Tied(b: File, c: File)
  {
    exists q :: TiedBy(b, c, q)
  }

  /** Two stored forms of one file differ only in records that tie. */
  lemma {:induction false} StoredIsTied(a: File, b: File, c: File)
    requires Stored(a, b) && Stored(a, c)
    ensures Tied(b, c)
  {
    hide Reordered, SourceOrder, Both, SamePlaces;
    var o :| StoredBy(a, b, o);
    var p :| StoredBy(a, c, p);
    ReorderedPermutes(a, b, o);
    ReorderedPermutes(a, c, p);
    var q := AllAcross(a, o, p);
    ReorderedAcross(a, b, c, o, p, q);
    SamePlacesHold(a, b, c, o, p, q);
    assert TiedBy(b, c, q);
  }

  lemma {:induction false} ReorderedPermutes(a: File, b: File, o: Orders)
    requires Reordered(a, b, o)
    ensures AllPermute(a, o)
  {
  }

  lemma {:induction false} SamePlacesHold(a: File, b: File, c: File, o: Orders, p: Orders, q: Orders)
    requires StoredBy(a, b, o) && StoredBy(a, c, p) && AllPermute(a, q) && Both(a, o, q) == p
    ensures SamePlaces(b, c, q)
  {
    hide Permutes, ByKey, Composed, StoredHint, SymbolPlace, RefPlace, ImportPlace, ExportPlace, HintPlace, Identity, KeyBefore;
    AllInBounds(a, o);
    AllInBounds(a, p);
    forall k: nat | k < |b.symbols| ensures SymbolPlace(b)(k) == SymbolPlace(c)(k) {
      SortedAgree(o.syms, p.syms, |a.symbols|, SymbolPlace(a), k);
      PlacesAsSymbols(a, b, c, o.syms[k], p.syms[k], k);
    }
    forall k: nat | k < |b.refs| ensures RefPlace(b)(k) == RefPlace(c)(k) {
      SortedAgree(o.refs, p.refs, |a.refs|, RefPlace(a), k);
      PlacesAsRefs(a, b, c, o.refs[k], p.refs[k], k);
    }
    StableAgree(o.imps, p.imps, q.imps, |a.imports|, ImportPlace(a)) by { ImportPlacesDiffer(a); }
    StableAgree(o.exps, p.exps, q.exps, |a.exports|, ExportPlace(a)) by { ExportPlacesDiffer(a); }
    StableAgree(o.hints, p.hints, q.hints, |a.hints|, HintPlace(a)) by { HintPlacesDiffer(a); }
  }

  lemma {:induction false} PlacesAsSymbols(a: File, b: File, c: File, i: nat, j: nat, k: nat)
    requires k < |b.symbols| && k < |c.symbols| && i < |a.symbols| && j < |a.symbols| && SymbolPlace(a)(i) == SymbolPlace(a)(j)
    requires b.symbols[k].name == a.symbols[i].name && b.symbols[k].line == U32(a.symbols[i].line)
    requires c.symbols[k].name == a.symbols[j].name && c.symbols[k].line == U32(a.symbols[j].line)
    ensures SymbolPlace(b)(k) == SymbolPlace(c)(k)
  {
    assert SymbolPlace(a)(i)[0] == SymbolPlace(a)(j)[0] && SymbolPlace(a)(i)[1] == SymbolPlace(a)(j)[1];
  }

  lemma {:induction false} PlacesAsRefs(a: File, b: File, c: File, i: nat, j: nat, k: nat)
    requires k < |b.refs| && k < |c.refs| && i < |a.refs| && j < |a.refs| && RefPlace(a)(i) == RefPlace(a)(j)
    requires var x, y := a.refs[i], b.refs[k];
      y.name == x.name && y.qualifier == x.qualifier && y.kind == x.kind && y.line == U32(x.line) && y.col == U16(if x.col < 0xFFFF then x.col else 0xFFFF)
    requires var x, y := a.refs[j], c.refs[k];
      y.name == x.name && y.qualifier == x.qualifier && y.kind == x.kind && y.line == U32(x.line) && y.col == U16(if x.col < 0xFFFF then x.col else 0xFFFF)
    ensures RefPlace(b)(k) == RefPlace(c)(k)
  {
    var x, y := RefPlace(a)(i), RefPlace(a)(j);
    assert x[0] == y[0] && x[1] == y[1] && x[2] == y[2] && x[3] == y[3] && x[4] == y[4];
  }

  /** No two places below n have one key. */
  ghost predicate KeysDiffer(n: nat, key: nat -> Key)
  {
    forall i: nat, j: nat :: i < n && j < n && key(i) == key(j) ==> i == j
  }

  lemma {:induction false} ImportPlacesDiffer(a: File)
    ensures KeysDiffer(|a.imports|, ImportPlace(a))
  {
    forall i: nat, j: nat | i < |a.imports| && j < |a.imports| && ImportPlace(a)(i) == ImportPlace(a)(j) ensures i == j {
      assert ImportPlace(a)(i)[2] == ImportPlace(a)(j)[2];
    }
  }

  lemma {:induction false} ExportPlacesDiffer(a: File)
    ensures KeysDiffer(|a.exports|, ExportPlace(a))
  {
    forall i: nat, j: nat | i < |a.exports| && j < |a.exports| && ExportPlace(a)(i) == ExportPlace(a)(j) ensures i == j {
      assert ExportPlace(a)(i)[1] == ExportPlace(a)(j)[1];
    }
  }

  lemma {:induction false} HintPlacesDiffer(a: File)
    ensures KeysDiffer(|a.hints|, HintPlace(a))
  {
    forall i: nat, j: nat | i < |a.hints| && j < |a.hints| && HintPlace(a)(i) == HintPlace(a)(j) ensures i == j {
      assert HintPlace(a)(i)[1] == HintPlace(a)(j)[1];
    }
  }

  /** Where keys differ there is one sorted order. */
  lemma {:induction false} StableAgree(o: seq<nat>, p: seq<nat>, q: seq<nat>, n: nat, key: nat -> Key)
    requires Permutes(o, n) && Permutes(p, n) && Permutes(q, n) && Composed(o, q) == p
    requires ByKey(o, key) && ByKey(p, key) && KeysDiffer(n, key)
    ensures o == p && q == Identity(n)
  {
    hide KeyBefore, ByKey;
    forall k | 0 <= k < n ensures o[k] == p[k] && q[k] == k {
      SortedAgree(o, p, n, key, k);
      assert p[k] == o[q[k]];
      PlaceIs(o, n, k);
      PlaceIs(o, n, q[k]);
    }
  }

  // ---------------------------------------------------------------------------------------------
  // Rewriting decoded files

  ghost function Identities(d: File): Orders
  {
    Orders(Identity(|d.symbols|), Identity(|d.imports|), Identity(|d.refs|), Identity(|d.exports|), Identity(|d.hints|))
  }

  /** The records of the file are in source order as they are. */
  ghost predicate InPlace(d: File)
  {
    SourceOrder(d, Identities(d))
  }

  lemma {:induction false} ComposedIdentity(o: seq<nat>, n: nat)
    requires Permutes(o, n)
    ensures Permutes(Identity(n), n) && Composed(o, Identity(n)) == o
  {
    IdentityPermutes(n);
  }

  /** A decoded file is a stored form of itself once its records are in source order. */
  lemma {:induction false} DecodedIsStored(a: File, d: File, o: Orders)
    requires Reordered(a, d, o)
    ensures Reordered(d, d, Identities(d))
  {
    hide Permutes, Composed, Identity, Reordered;
    ReorderedPermutes(a, d, o);
    SameCounts(a, d, o);
    ComposedIdentity(o.syms, |a.symbols|);
    ComposedIdentity(o.imps, |a.imports|);
    ComposedIdentity(o.refs, |a.refs|);
    ComposedIdentity(o.exps, |a.exports|);
    ComposedIdentity(o.hints, |a.hints|);
    ReorderedAcross(a, d, d, o, o, Identities(d));
  }

  lemma {:induction false} SameCounts(a: File, d: File, o: Orders)
    requires Reordered(a, d, o)
    ensures |d.symbols| == |a.symbols| && |d.imports| == |a.imports| && |d.refs| == |a.refs| && |d.exports| == |a.exports| && |d.hints| == |a.hints|
  {
  }

  /**
   Writing a decoded file again and decoding it moves only records that tie, exactly when the decoded file's records are in
   source order.
   */
  lemma {:induction false} RewritingTies(a: File, d: File, e: File, o: Orders)
    requires Reordered(a, d, o) && Stored(d, e)
    ensures Tied(d, e) <==> InPlace(d)
  {
    hide Reordered, Identities, SourceOrder;
    DecodedIsStored(a, d, o);
    if InPlace(d) {
      assert StoredBy(d, d, Identities(d));
      StoredIsTied(d, d, e);
    }
    if Tied(d, e) {
      var p :| StoredBy(d, e, p);
      var q :| TiedBy(d, e, q);
      TiedIsInPlace(a, d, e, o, p, q);
    }
  }

  lemma {:induction false} TiedIsInPlace(a: File, d: File, e: File, o: Orders, p: Orders, q: Orders)
    requires Reordered(a, d, o) && StoredBy(d, e, p) && TiedBy(d, e, q)
    ensures InPlace(d)
  {
    hide Permutes, ByKey, Composed, StoredHint, StoredSymbol, StoredRef, SymbolPlace, RefPlace, ImportPlace, ExportPlace, HintPlace, KeyBefore;
    ReorderedPermutes(d, e, p);
    AllInBounds(d, p);
    AllInBounds(d, q);
    AllInBounds(a, o);
    SymbolsInPlace(a, d, e, o, p);
    RefsInPlace(a, d, e, o, p);
    ImportsInPlace(a, d, e, o, p, q);
    ExportsInPlace(a, d, e, o, p, q);
    HintsInPlace(a, d, e, o, p, q);
  }

  /** An order that leaves every key where it is leaves the list sorted. */
  lemma {:induction false} KeysStay(p: seq<nat>, n: nat, key: nat -> Key)
    requires Permutes(p, n) && ByKey(p, key) && forall k: nat :: k < n ==> key(p[k]) == key(k)
    ensures ByKey(Identity(n), key)
  {
    hide KeyBefore;
    forall i, j | 0 <= i < j < n ensures !KeyBefore(key(j), key(i)) { assert !KeyBefore(key(p[j]), key(p[i])); }
  }

  lemma {:induction false} SymbolsInPlace(a: File, d: File, e: File, o: Orders, p: Orders)
    requires Reordered(a, d, o) && StoredBy(d, e, p) && forall k: nat :: k < |d.symbols| ==> SymbolPlace(d)(k) == SymbolPlace(e)(k)
    ensures ByKey(Identity(|d.symbols|), SymbolPlace(d))
  {
    hide KeyBefore, ByKey, Moved, StoredRef, StoredHint;
    forall k: nat | k < |d.symbols| ensures SymbolPlace(d)(p.syms[k]) == SymbolPlace(d)(k) {
      assert SymbolPlace(d)(k) == SymbolPlace(e)(k);
      assert e.symbols[k] == StoredSymbol(d.symbols[p.syms[k]], p.syms, p.syms[k]);
      var j := p.syms[k];
      assert d.symbols[j] == StoredSymbol(a.symbols[o.syms[j]], o.syms, o.syms[j]);
    }
    KeysStay(p.syms, |d.symbols|, SymbolPlace(d));
  }

  lemma {:induction false} RefsInPlace(a: File, d: File, e: File, o: Orders, p: Orders)
    requires Reordered(a, d, o) && StoredBy(d, e, p) && forall k: nat :: k < |d.refs| ==> RefPlace(d)(k) == RefPlace(e)(k)
    ensures ByKey(Identity(|d.refs|), RefPlace(d))
  {
    hide KeyBefore, ByKey, Moved, StoredSymbol, StoredHint;
    forall k: nat | k < |d.refs| ensures RefPlace(d)(p.refs[k]) == RefPlace(d)(k) {
      assert RefPlace(d)(k) == RefPlace(e)(k);
      assert e.refs[k] == StoredRef(d.refs[p.refs[k]], p.syms, p.refs, p.refs[k]);
      var j := p.refs[k];
      assert d.refs[j] == StoredRef(a.refs[o.refs[j]], o.syms, o.refs, o.refs[j]);
    }
    KeysStay(p.refs, |d.refs|, RefPlace(d));
  }

  /** Keys that end in the index: an order that leaves everything before the index where it is leaves the list sorted. */
  lemma {:induction false} TieKeysStay(p: seq<nat>, n: nat, key: nat -> Key, front: nat -> Key, width: nat)
    requires Permutes(p, n) && ByKey(p, key) && forall k: nat :: k < n ==> front(p[k]) == front(k)
    requires forall l: nat :: l < n ==> key(l) == front(l) + [Num(l)] && |front(l)| == width
    ensures ByKey(Identity(n), key)
  {
    hide KeyBefore;
    forall i: nat, j: nat | i < j < n ensures !KeyBefore(key(j), key(i)) {
      assert !KeyBefore(key(p[j]), key(p[i]));
      KeysJoin(front(p[j]), [Num(p[j])], front(p[i]), [Num(p[i])]);
      KeysJoin(front(j), [Num(j)], front(i), [Num(i)]);
      OneNumber(j, i);
    }
  }

  lemma {:induction false} ImportsOf(a: File, d: File, o: Orders)
    requires Reordered(a, d, o)
    ensures |d.imports| == |a.imports| && Permutes(o.imps, |a.imports|)
    ensures forall k: nat :: k < |d.imports| ==> d.imports[k] == StoredImport(a.imports[o.imps[k]])
  {
  }

  lemma {:induction false} ExportsOf(a: File, d: File, o: Orders)
    requires Reordered(a, d, o)
    ensures |d.exports| == |a.exports| && Permutes(o.exps, |a.exports|)
    ensures forall k: nat :: k < |d.exports| ==> d.exports[k] == StoredExport(a.exports[o.exps[k]])
  {
  }

  lemma {:induction false} HintsOf(a: File, d: File, o: Orders)
    requires Reordered(a, d, o)
    ensures |d.hints| == |a.hints| && Permutes(o.hints, |a.hints|)
    ensures forall k: nat :: k < |d.hints| ==> d.hints[k] == StoredHint(a.hints[o.hints[k]], o.syms)
  {
  }

  lemma {:induction false} ImportsInPlace(a: File, d: File, e: File, o: Orders, p: Orders, q: Orders)
    requires Reordered(a, d, o) && StoredBy(d, e, p) && TiedBy(d, e, q)
    ensures ByKey(Identity(|d.imports|), ImportPlace(d))
  {
    hide KeyBefore, ByKey, Moved, Reordered, SymbolPlace, RefPlace, Permutes;
    ImportsOf(a, d, o);
    ImportsOf(d, e, p);
    ImportsOf(d, e, q);
    InBounds(p.imps, |d.imports|);
    InBounds(o.imps, |d.imports|);
    var front: nat -> Key := (l: nat) => if l < |d.imports| then [Name(d.imports[l].path), Num(d.imports[l].line)] else [];
    forall k: nat | k < |d.imports| ensures front(p.imps[k]) == front(k) {
      var j := p.imps[k];
      assert q.imps[k] == k;
      assert e.imports[k] == StoredImport(d.imports[j]) && e.imports[k] == StoredImport(d.imports[k]);
      assert d.imports[j] == StoredImport(a.imports[o.imps[j]]) && d.imports[k] == StoredImport(a.imports[o.imps[k]]);
    }
    TieKeysStay(p.imps, |d.imports|, ImportPlace(d), front, 2);
  }

  lemma {:induction false} ExportsInPlace(a: File, d: File, e: File, o: Orders, p: Orders, q: Orders)
    requires Reordered(a, d, o) && StoredBy(d, e, p) && TiedBy(d, e, q)
    ensures ByKey(Identity(|d.exports|), ExportPlace(d))
  {
    hide KeyBefore, ByKey, Moved, Reordered, SymbolPlace, RefPlace, Permutes;
    ExportsOf(a, d, o);
    ExportsOf(d, e, p);
    ExportsOf(d, e, q);
    InBounds(p.exps, |d.exports|);
    InBounds(o.exps, |d.exports|);
    var front: nat -> Key := (l: nat) => if l < |d.exports| then [Num(d.exports[l].line)] else [];
    forall k: nat | k < |d.exports| ensures front(p.exps[k]) == front(k) {
      var j := p.exps[k];
      assert q.exps[k] == k;
      assert e.exports[k] == StoredExport(d.exports[j]) && e.exports[k] == StoredExport(d.exports[k]);
      assert d.exports[j] == StoredExport(a.exports[o.exps[j]]) && d.exports[k] == StoredExport(a.exports[o.exps[k]]);
    }
    TieKeysStay(p.exps, |d.exports|, ExportPlace(d), front, 1);
  }

  lemma {:induction false} HintsInPlace(a: File, d: File, e: File, o: Orders, p: Orders, q: Orders)
    requires Reordered(a, d, o) && StoredBy(d, e, p) && TiedBy(d, e, q)
    ensures ByKey(Identity(|d.hints|), HintPlace(d))
  {
    hide KeyBefore, ByKey, Moved, Reordered, SymbolPlace, RefPlace, Permutes;
    HintsOf(a, d, o);
    HintsOf(d, e, p);
    HintsOf(d, e, q);
    InBounds(p.hints, |d.hints|);
    InBounds(o.hints, |d.hints|);
    var front: nat -> Key := (l: nat) => if l < |d.hints| then [Num(d.hints[l].line)] else [];
    forall k: nat | k < |d.hints| ensures front(p.hints[k]) == front(k) {
      var j := p.hints[k];
      assert q.hints[k] == k;
      assert e.hints[k] == StoredHint(d.hints[j], p.syms) && e.hints[k] == StoredHint(d.hints[k], q.syms);
      assert d.hints[j] == StoredHint(a.hints[o.hints[j]], o.syms) && d.hints[k] == StoredHint(a.hints[o.hints[k]], o.syms);
    }
    TieKeysStay(p.hints, |d.hints|, HintPlace(d), front, 1);
  }

  // ---------------------------------------------------------------------------------------------
  // Positions the format can hold

  /** Keys seen through an order that sorts them rise. */
  lemma {:induction false} SortedKeysRise(o: seq<nat>, n: nat, key: nat -> Key, after: nat -> Key)
    requires Permutes(o, n) && ByKey(o, key) && forall k: nat :: k < n ==> after(k) == key(o[k])
    ensures ByKey(Identity(n), after)
  {
    hide KeyBefore;
    forall i: nat, j: nat | i < j < n ensures !KeyBefore(after(j), after(i)) { assert !KeyBefore(key(o[j]), key(o[i])); }
  }

  lemma {:induction false} TieKeysRise(o: seq<nat>, n: nat, key: nat -> Key, after: nat -> Key, front: nat -> Key, width: nat)
    requires Permutes(o, n) && ByKey(o, key)
    requires forall l: nat :: l < n ==> key(l) == front(l) + [Num(l)] && |front(l)| == width
    requires forall k: nat :: k < n ==> after(k) == front(o[k]) + [Num(k)]
    ensures ByKey(Identity(n), after)
  {
    hide KeyBefore;
    forall i: nat, j: nat | i < j < n ensures !KeyBefore(after(j), after(i)) {
      assert !KeyBefore(key(o[j]), key(o[i]));
      KeysJoin(front(o[j]), [Num(o[j])], front(o[i]), [Num(o[i])]);
      KeysJoin(front(o[j]), [Num(j)], front(o[i]), [Num(i)]);
      OneNumber(j, i);
    }
  }

  /** What decodes from a file whose positions the format can hold is in source order. */
  lemma {:induction false} FittingIsInPlace(a: File, d: File)
    requires Stored(a, d) && Fitting(a)
    ensures InPlace(d)
  {
    hide KeyBefore, ByKey, Reordered, SourceOrder, SymbolPlace, RefPlace, ImportPlace, ExportPlace, HintPlace;
    var o :| StoredBy(a, d, o);
    ReorderedPermutes(a, d, o);
    SameCounts(a, d, o);
    SourceOrders(a, o);
    SymbolsRise(a, d, o);
    RefsRise(a, d, o);
    ImportsRise(a, d, o);
    ExportsRise(a, d, o);
    HintsRise(a, d, o);
    InPlaceBySort(d);
  }

  lemma {:induction false} SourceOrders(a: File, o: Orders)
    requires SourceOrder(a, o)
    ensures ByKey(o.syms, SymbolPlace(a)) && ByKey(o.imps, ImportPlace(a)) && ByKey(o.refs, RefPlace(a))
    ensures ByKey(o.exps, ExportPlace(a)) && ByKey(o.hints, HintPlace(a))
  {
  }

  lemma {:induction false} InPlaceBySort(d: File)
    requires ByKey(Identity(|d.symbols|), SymbolPlace(d)) && ByKey(Identity(|d.imports|), ImportPlace(d)) && ByKey(Identity(|d.refs|), RefPlace(d))
    requires ByKey(Identity(|d.exports|), ExportPlace(d)) && ByKey(Identity(|d.hints|), HintPlace(d))
    ensures InPlace(d)
  {
    hide ByKey;
  }

  lemma {:induction false} SymbolsRise(a: File, d: File, o: Orders)
    requires Reordered(a, d, o) && Fitting(a) && ByKey(o.syms, SymbolPlace(a))
    ensures ByKey(Identity(|d.symbols|), SymbolPlace(d))
  {
    hide KeyBefore, ByKey, Moved, StoredRef, StoredHint;
    forall k: nat | k < |d.symbols| ensures SymbolPlace(d)(k) == SymbolPlace(a)(o.syms[k]) {
      assert d.symbols[k] == StoredSymbol(a.symbols[o.syms[k]], o.syms, o.syms[k]);
    }
    SortedKeysRise(o.syms, |d.symbols|, SymbolPlace(a), SymbolPlace(d));
  }

  lemma {:induction false} RefsRise(a: File, d: File, o: Orders)
    requires Reordered(a, d, o) && Fitting(a) && ByKey(o.refs, RefPlace(a))
    ensures ByKey(Identity(|d.refs|), RefPlace(d))
  {
    hide KeyBefore, ByKey, Moved, StoredSymbol, StoredHint;
    forall k: nat | k < |d.refs| ensures RefPlace(d)(k) == RefPlace(a)(o.refs[k]) {
      assert d.refs[k] == StoredRef(a.refs[o.refs[k]], o.syms, o.refs, o.refs[k]);
    }
    SortedKeysRise(o.refs, |d.refs|, RefPlace(a), RefPlace(d));
  }

  lemma {:induction false} ImportsRise(a: File, d: File, o: Orders)
    requires Reordered(a, d, o) && Fitting(a) && ByKey(o.imps, ImportPlace(a))
    ensures ByKey(Identity(|d.imports|), ImportPlace(d))
  {
    hide KeyBefore, ByKey, Moved, Reordered;
    ImportsOf(a, d, o);
    var front: nat -> Key := (l: nat) => if l < |a.imports| then [Name(a.imports[l].path), Num(a.imports[l].line)] else [];
    forall k: nat | k < |d.imports| ensures ImportPlace(d)(k) == front(o.imps[k]) + [Num(k)] {
      assert d.imports[k] == StoredImport(a.imports[o.imps[k]]);
    }
    TieKeysRise(o.imps, |d.imports|, ImportPlace(a), ImportPlace(d), front, 2);
  }

  lemma {:induction false} ExportsRise(a: File, d: File, o: Orders)
    requires Reordered(a, d, o) && Fitting(a) && ByKey(o.exps, ExportPlace(a))
    ensures ByKey(Identity(|d.exports|), ExportPlace(d))
  {
    hide KeyBefore, ByKey, Moved, Reordered;
    ExportsOf(a, d, o);
    var front: nat -> Key := (l: nat) => if l < |a.exports| then [Num(a.exports[l].line)] else [];
    forall k: nat | k < |d.exports| ensures ExportPlace(d)(k) == front(o.exps[k]) + [Num(k)] {
      assert d.exports[k] == StoredExport(a.exports[o.exps[k]]);
    }
    TieKeysRise(o.exps, |d.exports|, ExportPlace(a), ExportPlace(d), front, 1);
  }

  lemma {:induction false} HintsRise(a: File, d: File, o: Orders)
    requires Reordered(a, d, o) && Fitting(a) && ByKey(o.hints, HintPlace(a))
    ensures ByKey(Identity(|d.hints|), HintPlace(d))
  {
    hide KeyBefore, ByKey, Moved, Reordered;
    HintsOf(a, d, o);
    var front: nat -> Key := (l: nat) => if l < |a.hints| then [Num(a.hints[l].line)] else [];
    forall k: nat | k < |d.hints| ensures HintPlace(d)(k) == front(o.hints[k]) + [Num(k)] {
      assert d.hints[k] == StoredHint(a.hints[o.hints[k]], o.syms);
    }
    TieKeysRise(o.hints, |d.hints|, HintPlace(a), HintPlace(d), front, 1);
  }

  /** An order by keys that rise and differ already is the identity. */
  lemma {:induction false} AlreadySorted(o: seq<nat>, p: seq<nat>, n: nat, key: nat -> Key)
    requires Permutes(o, n) && Permutes(p, n) && ByKey(p, key) && ByKey(Identity(n), key) && KeysDiffer(n, key)
    ensures Composed(o, p) == o
  {
    hide KeyBefore, ByKey;
    IdentityPermutes(n);
    forall k | 0 <= k < n ensures p[k] == k { SortedAgree(p, Identity(n), n, key, k); }
  }

  lemma {:induction false} ComposedByKey(o: seq<nat>, p: seq<nat>, n: nat, key: nat -> Key, after: nat -> Key)
    requires Permutes(o, n) && Permutes(p, n) && ByKey(p, after) && forall k: nat :: k < n ==> after(k) == key(o[k])
    ensures ByKey(Composed(o, p), key)
  {
    hide KeyBefore;
    forall i: nat, j: nat | i < j < n ensures !KeyBefore(key(o[p[j]]), key(o[p[i]])) { assert !KeyBefore(after(p[j]), after(p[i])); }
  }

  /** A stored form of a stored form is a stored form of the original. */
  lemma {:induction false} StoredAgain(a: File, b: File, c: File)
    requires Stored(a, b) && Stored(b, c) && Fitting(a)
    ensures Stored(a, c)
  {
    hide Reordered, ByKey, SymbolPlace, RefPlace, ImportPlace, ExportPlace, HintPlace, Composed, Fitting, Identity;
    var o :| StoredBy(a, b, o);
    var p :| StoredBy(b, c, p);
    FittingIsInPlace(a, b);
    ReorderedTwice(a, b, c, o, p);
    SameCounts(a, b, o);
    ReorderedPermutes(b, c, p);
    AlreadySorted(o.imps, p.imps, |a.imports|, ImportPlace(b)) by { ImportPlacesDiffer(b); }
    AlreadySorted(o.exps, p.exps, |a.exports|, ExportPlace(b)) by { ExportPlacesDiffer(b); }
    AlreadySorted(o.hints, p.hints, |a.hints|, HintPlace(b)) by { HintPlacesDiffer(b); }
    SymbolsStaySorted(a, b, o, p);
    RefsStaySorted(a, b, o, p);
    assert StoredBy(a, c, Both(a, o, p));
  }

  lemma {:induction false} SymbolsStaySorted(a: File, b: File, o: Orders, p: Orders)
    requires Reordered(a, b, o) && Fitting(a) && AllPermute(a, p) && ByKey(p.syms, SymbolPlace(b))
    ensures AllPermute(a, o) && ByKey(Both(a, o, p).syms, SymbolPlace(a))
  {
    hide KeyBefore, ByKey, Moved, StoredRef, StoredHint;
    forall k: nat | k < |b.symbols| ensures SymbolPlace(b)(k) == SymbolPlace(a)(o.syms[k]) {
      assert b.symbols[k] == StoredSymbol(a.symbols[o.syms[k]], o.syms, o.syms[k]);
    }
    ComposedByKey(o.syms, p.syms, |b.symbols|, SymbolPlace(a), SymbolPlace(b));
  }

  lemma {:induction false} RefsStaySorted(a: File, b: File, o: Orders, p: Orders)
    requires Reordered(a, b, o) && Fitting(a) && AllPermute(a, p) && ByKey(p.refs, RefPlace(b))
    ensures AllPermute(a, o) && ByKey(Both(a, o, p).refs, RefPlace(a))
  {
    hide KeyBefore, ByKey, Moved, StoredSymbol, StoredHint;
    forall k: nat | k < |b.refs| ensures RefPlace(b)(k) == RefPlace(a)(o.refs[k]) {
      assert b.refs[k] == StoredRef(a.refs[o.refs[k]], o.syms, o.refs, o.refs[k]);
    }
    ComposedByKey(o.refs, p.refs, |b.refs|, RefPlace(a), RefPlace(b));
  }

  // ---------------------------------------------------------------------------------------------
  // Columns beyond the format's are not kept apart

  const FAR: Ref := Ref(0, -1, "b", "", 0, 1, 70000, 0, "", 0)
  const FARTHER: Ref := Ref(0, -1, "a", "", 0, 1, 80000, 0, "", 0)

  /**
   Two references on one line beyond column 65535 decode in the order of their columns, both at column 65535; written again,
   they come back in the order of their names, although neither ties with the other in the original.
   */
  lemma {:induction false} FarColumnsMove(a: File, d: File, e: File)
    requires a.refs == [FAR, FARTHER] && Stored(a, d) && Stored(d, e)
    ensures d.refs[0].name == "b" && d.refs[1].name == "a" && !InPlace(d) && !Tied(d, e)
  {
    hide Moved, StoredSymbol, StoredHint, SymbolPlace, ImportPlace, ExportPlace, HintPlace;
    var o :| StoredBy(a, d, o);
    assert ByKey(o.refs, RefPlace(a)) && |o.refs| == 2;
    assert !KeyBefore(RefPlace(a)(o.refs[1]), RefPlace(a)(o.refs[0]));
    FarBefore(a);
    assert o.refs[0] == 0 && o.refs[1] == 1;
    assert d.refs[0] == StoredRef(FAR, o.syms, o.refs, 0) && d.refs[1] == StoredRef(FARTHER, o.syms, o.refs, 1);
    FarAfter(d);
    InPlaceRises(d);
    RewritingTies(a, d, e, o);
  }

  lemma {:induction false} InPlaceRises(d: File)
    requires |d.refs| == 2
    ensures InPlace(d) ==> !KeyBefore(RefPlace(d)(1), RefPlace(d)(0))
  {
    hide KeyBefore, RefPlace;
    assert Identity(2)[0] == 0 && Identity(2)[1] == 1;
  }

  lemma {:induction false} FarBefore(a: File)
    requires a.refs == [FAR, FARTHER]
    ensures KeyBefore(RefPlace(a)(0), RefPlace(a)(1))
  {
  }

  lemma {:induction false} FarAfter(d: File)
    requires |d.refs| == 2 && d.refs[0].line == d.refs[1].line && d.refs[0].col == d.refs[1].col
    requires d.refs[0].name == "b" && d.refs[1].name == "a"
    ensures KeyBefore(RefPlace(d)(1), RefPlace(d)(0))
  {
    var x, y := RefPlace(d)(1), RefPlace(d)(0);
    assert Less("a", "b");
    assert x[0] == y[0] && x[1] == y[1];
    assert PartBefore(x[2], y[2]);
    assert KeyBefore(x[1..][1..], y[1..][1..]);
    assert KeyBefore(x[1..], y[1..]);
  }
}
