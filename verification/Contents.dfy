/**
 What the stored records say, across compactions: every record of every segment decodes to the facts its file was first indexed
 with, re-ordered, however often it was written again.
 */
module Contents {
  import opened Common
  import opened Order
  import opened SegmentTables
  import opened SegmentRoundTrip
  import opened Rewriting
  import L = Layers
  import S = Snapshots
  import C = Compaction
  import E = SegmentEncode
  import X = SegmentTexts
  import Q = SegmentSearch
  import K = SegmentLookup

  /** The facts each record stands for, as its file was first indexed. */
  type Origin = L.Facts -> File

  /** d is a as it comes back from being encoded, once or more often. */
  ghost predicate Faithful(a: File, d: File)
  {
    (exists o :: Reordered(a, d, o)) && (Fitting(a) ==> Stored(a, d))
  }

  lemma {:induction false} FaithfulStep(a: File, d: File, e: File)
    requires Faithful(a, d) && Stored(d, e)
    ensures Faithful(a, e)
  {
    hide Reordered, SourceOrder, Both, Fitting;
    var o :| Reordered(a, d, o);
    var p :| StoredBy(d, e, p);
    ReorderedTwice(a, d, e, o, p);
    if Fitting(a) { StoredAgain(a, d, e); }
  }

  /** Two readings of one record differ in nothing but the order of records, and, if the format can hold every position, of ties. */
  lemma {:induction false} FaithfulAgree(a: File, d: File, e: File)
    requires Faithful(a, d) && Faithful(a, e)
    ensures (exists q :: Reordered(d, e, q)) && (Fitting(a) ==> Tied(d, e))
  {
    hide Reordered, SourceOrder, Both, Fitting, SamePlaces;
    var o :| Reordered(a, d, o);
    var p :| Reordered(a, e, p);
    ReorderedPermutes(a, d, o);
    ReorderedPermutes(a, e, p);
    ReorderedAcross(a, d, e, o, p, AllAcross(a, o, p));
    if Fitting(a) { StoredIsTied(a, d, e); }
  }

  // ---------------------------------------------------------------------------------------------
  // Segments and their tables

  /** Arity bytes are bytes. */
  predicate ByteArities(t: Tables)
  {
    forall g :: 0 <= g < |t.syms| ==> t.syms[g].maxArgs < 256
  }

  /** The tables hold the segment's records, each decoding to what it stands for. */
  ghost predicate Carries(t: Tables, s: L.Segment, orig: Origin)
  {
    && Valid(t) && ByteArities(t) && |t.files| == |s|
    && forall i: nat :: i < |s| ==> IsRecord(Decoded(t, i), s[i], orig)
  }

  ghost predicate IsRecord(d: File, r: L.File, orig: Origin)
  {
    d.path == r.path && d.deleted == r.deleted && Sizes(d) && Faithful(orig(r.facts), d)
  }

  ghost predicate AllCarry(tabs: seq<Tables>, segs: seq<L.Segment>, orig: Origin)
  {
    |tabs| == |segs| && forall k :: 0 <= k < |segs| ==> Carries(tabs[k], segs[k], orig)
  }

  /** The record a lookup of a live path decodes. */
  ghost function ReadPath(tabs: seq<Tables>, segs: seq<L.Segment>, p: Path, orig: Origin): File
    requires AllCarry(tabs, segs, orig) && p in L.Meaning(segs)
  {
    L.MeaningIsNewest(segs, p);
    var ref := L.Newest(segs, p).value;
    assert Carries(tabs[ref.seg], segs[ref.seg], orig);
    Decoded(tabs[ref.seg], ref.file)
  }

  /** A lookup decodes what the live record stands for. */
  lemma {:induction false} ReadIsFaithful(tabs: seq<Tables>, segs: seq<L.Segment>, p: Path, orig: Origin)
    requires AllCarry(tabs, segs, orig) && p in L.Meaning(segs)
    ensures IsRecord(ReadPath(tabs, segs, p, orig), L.Meaning(segs)[p], orig)
  {
    hide Faithful, Decoded, Valid, Sizes;
    L.MeaningIsNewest(segs, p);
    var ref := L.Newest(segs, p).value;
    assert Carries(tabs[ref.seg], segs[ref.seg], orig);
  }

  /** Two stacks with the same live map give the same facts for every path, up to the order of records and, if positions fit, of ties. */
  lemma {:induction false} LookupsAgree(tabs: seq<Tables>, segs: seq<L.Segment>, tabs': seq<Tables>, segs': seq<L.Segment>, p: Path, orig: Origin)
    requires AllCarry(tabs, segs, orig) && AllCarry(tabs', segs', orig) && L.Meaning(segs) == L.Meaning(segs') && p in L.Meaning(segs)
    ensures var d, e := ReadPath(tabs, segs, p, orig), ReadPath(tabs', segs', p, orig);
      && (exists q :: Reordered(d, e, q))
      && (Fitting(orig(L.Meaning(segs)[p].facts)) ==> Tied(d, e))
  {
    hide Faithful, Reordered, Tied, ReadPath, AllCarry, Fitting, Sizes;
    ReadIsFaithful(tabs, segs, p, orig);
    ReadIsFaithful(tabs', segs', p, orig);
    FaithfulAgree(orig(L.Meaning(segs)[p].facts), ReadPath(tabs, segs, p, orig), ReadPath(tabs', segs', p, orig));
  }

  // ---------------------------------------------------------------------------------------------
  // Writing a piece again

  /** Every record of the piece is the live one of its path. */
  ghost predicate IsLive(piece: L.Segment, segs: seq<L.Segment>)
  {
    forall f :: 0 <= f < |piece| ==> piece[f].path in L.Meaning(segs) && L.Meaning(segs)[piece[f].path] == piece[f]
  }

  /** What is decoded for a piece. */
  ghost function Inputs(tabs: seq<Tables>, segs: seq<L.Segment>, piece: L.Segment, orig: Origin): (files: seq<File>)
    requires AllCarry(tabs, segs, orig) && IsLive(piece, segs)
    ensures |files| == |piece|
  {
    seq(|piece|, f requires 0 <= f < |piece| => ReadPath(tabs, segs, piece[f].path, orig))
  }

  /** What decodes can be encoded again. */
  lemma {:induction false} DecodedIsStorable(t: Tables, i: nat)
    requires Valid(t) && ByteArities(t) && i < |t.files|
    ensures E.FileStorable(Decoded(t, i))
  {
    hide View, PathsAscend, SearchOk, PairsOk, Local, Position, FileOk, Bit;
    var d := Decoded(t, i);
    var S, R := SymbolsInFile(t, i), RefsInFile(t, i);
    assert FileOk(t, i);
    forall k: nat | k < |d.symbols| ensures E.Storable(d.symbols[k]) { assert SymbolOk(t, S[k]); }
    forall k: nat | k < |d.refs| ensures d.refs[k].kind < REF_KINDS { assert RefRecOk(t, R[k]); }
    assert t.files[i].impOff + t.files[i].impN <= |t.imps| by { FileImports(t, i); }
    forall k: nat | k < |d.imports| ensures d.imports[k].kind < IMPORT_KINDS {
      assert ImportOk(t, t.files[i].impOff + k);
      assert d.imports[k] == DecodedImport(t, t.files[i].impOff + k);
    }
  }

  lemma {:induction false} FileImports(t: Tables, i: nat)
    requires Valid(t) && i < |t.files|
    ensures t.files[i].impOff + t.files[i].impN <= |t.imps|
  {
    assert FileOk(t, i);
  }

  lemma {:induction false} OneOrder(a: seq<File>, b: seq<File>)
    requires multiset(a) == multiset(b) && E.Sorted(a) && E.Sorted(b)
    ensures a == b
    decreases |a|
  {
    hide E.Sorted;
    assert |a| == |multiset(a)| == |multiset(b)| == |b|;
    if a != [] {
      var n := |a| - 1;
      LastIsLast(a, b);
      WithoutLast(a);
      WithoutLast(b);
      OneOrder(a[..n], b[..n]);
      assert a == a[..n] + [a[n]] && b == b[..n] + [b[n]];
    }
  }

  lemma {:induction false} WithoutLast(a: seq<File>)
    requires a != [] && E.Sorted(a)
    ensures multiset(a[..|a| - 1]) == multiset(a) - multiset{a[|a| - 1]} && E.Sorted(a[..|a| - 1])
  {
    hide Less;
    assert a == a[..|a| - 1] + [a[|a| - 1]];
  }

  lemma {:induction false} LastIsLast(a: seq<File>, b: seq<File>)
    requires multiset(a) == multiset(b) && E.Sorted(a) && E.Sorted(b) && a != [] && |a| == |b|
    ensures a[|a| - 1] == b[|b| - 1]
  {
    hide Less;
    var n := |a| - 1;
    assert a[n] in multiset(b) && b[n] in multiset(a);
    var i :| 0 <= i < |b| && b[i] == a[n];
    var j :| 0 <= j < |a| && a[j] == b[n];
    if i < n && j < n {
      LessAtMost(a[j].path, a[n].path, a[j].path) by { assert Less(b[i].path, b[n].path); }
      assert false;
    }
  }

  lemma {:induction false} ArityIsByte(files: seq<File>, plan: Plan, t: Tables)
    requires Written(files, plan, t)
    ensures ByteArities(t)
  {
    hide Lists, LinkTo, Holds;
    forall g | 0 <= g < |t.syms| ensures t.syms[g].maxArgs < 256 {
      assert SymbolWritten(files, plan, t, g);
      assert plan.syms[g] in plan.syms;
    }
  }

  /** What is encoded from decoded records carries the same records. */
  lemma {:induction false} WrittenCarries(files: seq<File>, plan: Plan, t: Tables, piece: L.Segment, orig: Origin)
    requires Written(files, plan, t) && |files| == |piece|
    requires forall i: nat :: i < |piece| ==> IsRecord(files[i], piece[i], orig)
    ensures Carries(t, piece, orig)
  {
    hide Faithful, Stored, Decoded, Valid, Sizes, ByteArities, E.FileStorable;
    WrittenIsValid(files, plan, t);
    ArityIsByte(files, plan, t);
    assert |t.files| == |files|;
    hide Written;
    forall i: nat | i < |piece| ensures IsRecord(Decoded(t, i), piece[i], orig) {
      FileRoundTrips(files, plan, t, i);
      StoredKeepsMeta(files[i], Decoded(t, i));
      FaithfulStep(orig(piece[i].facts), files[i], Decoded(t, i));
    }
  }

  /** What is first encoded carries the records of its files. */
  lemma {:induction false} IndexedCarries(files: seq<File>, plan: Plan, t: Tables, s: L.Segment, orig: Origin)
    requires Written(files, plan, t) && |files| == |s|
    requires forall i: nat :: i < |s| ==>
      files[i] == orig(s[i].facts) && files[i].path == s[i].path && files[i].deleted == s[i].deleted && Sizes(files[i])
    ensures Carries(t, s, orig)
  {
    hide Reordered, SourceOrder, Decoded, Valid, Sizes, ByteArities, Fitting;
    WrittenIsValid(files, plan, t);
    ArityIsByte(files, plan, t);
    assert |t.files| == |files|;
    hide Written;
    forall i: nat | i < |s| ensures IsRecord(Decoded(t, i), s[i], orig) {
      FileRoundTrips(files, plan, t, i);
      StoredKeepsMeta(files[i], Decoded(t, i));
      var o :| StoredBy(files[i], Decoded(t, i), o);
    }
  }

  lemma {:induction false} StoredKeepsMeta(a: File, d: File)
    requires Stored(a, d)
    ensures d.path == a.path && d.deleted == a.deleted && d.size == a.size && d.mtime == a.mtime && (Sizes(a) ==> Sizes(d))
  {
    hide SourceOrder;
    var o :| StoredBy(a, d, o);
  }

  /** One new shard: its records are decoded from wherever they are and encoded together. */
  method Rewrite(sn: S.Snapshot, tabs: seq<Tables>, piece: L.Segment, lang: Q.Language, ghost orig: Origin) returns (r: E.Result<Tables>)
    requires sn.Valid() && AllCarry(tabs, sn.segs, orig) && IsLive(piece, sn.segs)
    requires E.Indexable(Inputs(tabs, sn.segs, piece, orig))
    ensures r.Ok? ==> Carries(r.value, piece, orig)
    ensures r.Err? ==> r.error == E.TooLong && X.TooMuch(lang, Inputs(tabs, sn.segs, piece, orig))
  {
    hide *;
    InputsAre(tabs, sn.segs, piece, orig);
    var input: seq<File> := [];
    for f := 0 to |piece|
      invariant input == Inputs(tabs, sn.segs, piece, orig)[..f]
    {
      PieceIsLive(piece, sn.segs, f);
      var ref, ok := sn.Lookup(piece[f].path);
      ReadAt(tabs, sn.segs, piece[f].path, ref, orig);
      var file := K.ReadFile(tabs[ref.seg], ref.file);
      input := input + [file];
    }
    assert input == Inputs(tabs, sn.segs, piece, orig);
    var encoded, files, plan := E.Encode(lang, input);
    InputsAreSorted(tabs, sn.segs, piece, orig);
    if encoded.Ok? {
      WrittenIsSorted(files, plan, encoded.value);
      OneOrder(files, input);
      WrittenCarries(files, plan, encoded.value, piece, orig);
    }
    r := encoded;
  }

  lemma {:induction false} PieceIsLive(piece: L.Segment, segs: seq<L.Segment>, f: nat)
    requires IsLive(piece, segs) && f < |piece|
    ensures piece[f].path in L.Meaning(segs) && L.Meaning(segs)[piece[f].path] == piece[f]
  {
  }

  lemma {:induction false} ReadAt(tabs: seq<Tables>, segs: seq<L.Segment>, p: Path, ref: L.Ref, orig: Origin)
    requires AllCarry(tabs, segs, orig) && p in L.Meaning(segs)
    requires ref.seg < |segs| && ref.file < |segs[ref.seg]| && L.At(segs, ref) == L.Meaning(segs)[p] && L.Current(segs, ref.seg, ref.file)
    ensures |tabs| == |segs| && Valid(tabs[ref.seg]) && ref.file < |tabs[ref.seg].files|
    ensures Decoded(tabs[ref.seg], ref.file) == ReadPath(tabs, segs, p, orig)
  {
    hide IsRecord, Decoded, Valid;
    L.MeaningKeys(segs, p);
    assert Carries(tabs[ref.seg], segs[ref.seg], orig);
  }

  lemma {:induction false} InputsAre(tabs: seq<Tables>, segs: seq<L.Segment>, piece: L.Segment, orig: Origin)
    requires AllCarry(tabs, segs, orig) && IsLive(piece, segs)
    ensures |Inputs(tabs, segs, piece, orig)| == |piece|
    ensures forall f :: 0 <= f < |piece| ==> Inputs(tabs, segs, piece, orig)[f] == ReadPath(tabs, segs, piece[f].path, orig)
  {
    hide ReadPath, AllCarry;
  }

  /** The decoded files are in path order, stand for the piece's records, and can be encoded. */
  lemma {:induction false} InputsAreSorted(tabs: seq<Tables>, segs: seq<L.Segment>, piece: L.Segment, orig: Origin)
    requires AllCarry(tabs, segs, orig) && IsLive(piece, segs)
    ensures var files := Inputs(tabs, segs, piece, orig);
      && E.Sorted(files) && (forall i: nat :: i < |piece| ==> IsRecord(files[i], piece[i], orig))
      && (forall f :: f in files ==> E.FileStorable(f))
      && !exists i, j :: 0 <= i < j < |files| && files[i].path == files[j].path
  {
    hide AllCarry, ReadPath, Faithful, Sizes, E.FileStorable, Less;
    var files := Inputs(tabs, segs, piece, orig);
    forall i: nat | i < |piece| ensures IsRecord(files[i], piece[i], orig) && E.FileStorable(files[i]) {
      PieceIsLive(piece, segs, i);
      ReadIsFaithful(tabs, segs, piece[i].path, orig);
      ReadIsStorable(tabs, segs, piece[i].path, orig);
    }
    forall i, j | 0 <= i < j < |files| ensures Less(files[i].path, files[j].path) && files[i].path != files[j].path {
      assert Less(piece[i].path, piece[j].path);
      Irreflexive(piece[i].path);
    }
  }

  lemma {:induction false} ReadIsStorable(tabs: seq<Tables>, segs: seq<L.Segment>, p: Path, orig: Origin)
    requires AllCarry(tabs, segs, orig) && p in L.Meaning(segs)
    ensures E.FileStorable(ReadPath(tabs, segs, p, orig))
  {
    hide IsRecord, Decoded, Valid, E.FileStorable, ByteArities;
    L.MeaningIsNewest(segs, p);
    var ref := L.Newest(segs, p).value;
    assert Carries(tabs[ref.seg], segs[ref.seg], orig);
    DecodedIsStorable(tabs[ref.seg], ref.file);
  }

  lemma {:induction false} WrittenIsSorted(files: seq<File>, plan: Plan, t: Tables)
    requires Written(files, plan, t)
    ensures E.Sorted(files)
  {
    hide Less;
  }

  // ---------------------------------------------------------------------------------------------
  // A whole compaction

  /** In a base every record is the live one of its path. */
  lemma {:induction false} BaseIsLive(shards: seq<L.Segment>, los: seq<Path>, k: nat)
    requires L.Base(shards, los) && k < |shards|
    ensures IsLive(shards[k], shards)
  {
    forall f: nat | f < |shards[k]| ensures shards[k][f].path in L.Meaning(shards) && L.Meaning(shards)[shards[k][f].path] == shards[k][f] {
      var p := shards[k][f].path;
      assert L.InRange(los, k, p) && !shards[k][f].deleted;
      L.ShardIndexUnique(los, p, k);
      L.IndexIs(shards[k], p, f);
      S.BaseNewest(shards, los, p);
      L.MeaningIsNewest(shards, p);
    }
  }

  /** Each shard's records have fewer symbols and references than there are indexes. */
  ghost predicate Countable(tabs: seq<Tables>, segs: seq<L.Segment>, orig: Origin)
    requires AllCarry(tabs, segs, orig)
  {
    forall piece: L.Segment :: IsLive(piece, segs) ==> E.Indexable(Inputs(tabs, segs, piece, orig))
  }

  /**
   Compact, with the records' contents: reused shards keep their tables, the others are decoded and encoded again. The new base
   holds the same live records, and each decodes to what it always stood for.
   */
  method CompactTables(sn: S.Snapshot, tabs: seq<Tables>, shardBytes: nat, lang: Q.Language, ghost orig: Origin)
    returns (changed: bool, r: E.Result<seq<Tables>>, ps: seq<C.Piece>)
    requires sn.Valid() && AllCarry(tabs, sn.segs, orig) && Countable(tabs, sn.segs, orig)
    ensures changed <==> |sn.segs| != sn.nShards
    ensures r.Err? ==> r.error == E.TooLong && exists piece: L.Segment :: IsLive(piece, sn.segs) && X.TooMuch(lang, Inputs(tabs, sn.segs, piece, orig))
    ensures changed && r.Ok? ==> L.Base(C.Segs(ps), C.Los(ps)) && L.Meaning(C.Segs(ps)) == L.Meaning(sn.segs)
    ensures changed && r.Ok? ==> AllCarry(r.value, C.Segs(ps), orig)
    ensures changed && r.Ok? ==> forall p :: p in L.Meaning(sn.segs) ==>
      var d, e := ReadPath(tabs, sn.segs, p, orig), ReadPath(r.value, C.Segs(ps), p, orig);
      (exists q :: Reordered(d, e, q)) && (Fitting(orig(L.Meaning(sn.segs)[p].facts)) ==> Tied(d, e))
  {
    hide *;
    var touched;
    changed, ps, touched := C.Compact(sn, shardBytes);
    r := E.Ok([]);
    if changed {
      var made: seq<Tables> := [];
      SameLengths(ps);
      for i := 0 to |ps|
        invariant |made| == i && forall k :: 0 <= k < i ==> Carries(made[k], ps[k].seg, orig)
      {
        PieceOf(sn.segs, ps, touched, sn.nShards, shardBytes, i);
        match ps[i].from
        case Some(j) =>
          CarriesAt(tabs, sn.segs, orig, j);
          made := made + [tabs[j]];
        case None =>
          BaseIsLive(C.Segs(ps), C.Los(ps), i);
          LiveIn(ps[i].seg, C.Segs(ps), sn.segs);
          CountPiece(tabs, sn.segs, orig, ps[i].seg);
          var t := Rewrite(sn, tabs, ps[i].seg, lang, orig);
          if t.Err? { return changed, E.Err(t.error), ps; }
          made := made + [t.value];
      }
      MadeCarry(made, ps, orig);
      r := E.Ok(made);
      forall p | p in L.Meaning(sn.segs)
        ensures var d, e := ReadPath(tabs, sn.segs, p, orig), ReadPath(made, C.Segs(ps), p, orig);
          (exists q :: Reordered(d, e, q)) && (Fitting(orig(L.Meaning(sn.segs)[p].facts)) ==> Tied(d, e))
      {
        LookupsAgree(tabs, sn.segs, made, C.Segs(ps), p, orig);
      }
    }
  }

  lemma {:induction false} SameLengths(ps: seq<C.Piece>)
    ensures |C.Segs(ps)| == |ps| && forall i :: 0 <= i < |ps| ==> C.Segs(ps)[i] == ps[i].seg
  {
  }

  /** A piece is an old shard as it is, or new. */
  lemma {:induction false} PieceOf(segs: seq<L.Segment>, ps: seq<C.Piece>, touched: set<int>, n: nat, shardBytes: nat, i: nat)
    requires n <= |segs| && i < |ps| && (C.Reuses(ps, segs, touched, n, shardBytes) || ps == [C.EMPTY_PIECE])
    ensures ps[i].from.Some? ==> ps[i].from.value < |segs| && ps[i].seg == segs[ps[i].from.value]
  {
  }

  lemma {:induction false} CarriesAt(tabs: seq<Tables>, segs: seq<L.Segment>, orig: Origin, j: nat)
    requires AllCarry(tabs, segs, orig) && j < |segs|
    ensures |tabs| == |segs| && Carries(tabs[j], segs[j], orig)
  {
  }

  lemma {:induction false} LiveIn(piece: L.Segment, shards: seq<L.Segment>, segs: seq<L.Segment>)
    requires IsLive(piece, shards) && L.Meaning(shards) == L.Meaning(segs)
    ensures IsLive(piece, segs)
  {
  }

  lemma {:induction false} CountPiece(tabs: seq<Tables>, segs: seq<L.Segment>, orig: Origin, piece: L.Segment)
    requires AllCarry(tabs, segs, orig) && Countable(tabs, segs, orig) && IsLive(piece, segs)
    ensures E.Indexable(Inputs(tabs, segs, piece, orig))
  {
  }

  lemma {:induction false} MadeCarry(made: seq<Tables>, ps: seq<C.Piece>, orig: Origin)
    requires |made| == |ps| && forall k :: 0 <= k < |ps| ==> Carries(made[k], ps[k].seg, orig)
    ensures AllCarry(made, C.Segs(ps), orig)
  {
    hide Carries;
  }
}
