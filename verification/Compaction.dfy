/**
 Folding overlays into the base, and building a base from a stream of files.

 Compaction rewrites only the shards whose range holds an overlay record; the others are reused as they are. The
 result means exactly what the stack meant before.
 */
module Compaction {
  import opened Common
  import opened Order
  import opened Layers
  import opened Snapshots

  // ---------------------------------------------------------------------------------------------
  // Laying records in sequence

  /** The map of one segment on its own. */
  function Alone(s: seq<File>): map<Path, File>
  {
    Overlay(map[], s)
  }

  lemma {:induction false} OverlayConcat(m: map<Path, File>, a: seq<File>, b: seq<File>)
    ensures Overlay(m, a + b) == Overlay(Overlay(m, a), b)
  {
    if b == [] {
      assert a + b == a;
    } else {
      var n := |b| - 1;
      OverlayConcat(m, a, b[..n]);
      assert (a + b)[..|a + b| - 1] == a + b[..n];
    }
  }

  ghost predicate NoTombstones(segs: seq<Segment>)
  {
    forall i, f :: 0 <= i < |segs| && 0 <= f < |segs[i]| ==> !segs[i][f].deleted
  }

  /** Laying one stack without tombstones on another: the upper one wins where it has the path. */
  lemma {:induction false} StackAt(a: seq<Segment>, b: seq<Segment>, p: Path)
    requires NoTombstones(b)
    ensures p in Meaning(a + b) <==> p in Meaning(a) || p in Meaning(b)
    ensures p in Meaning(b) ==> Meaning(a + b)[p] == Meaning(b)[p]
    ensures p !in Meaning(b) && p in Meaning(a) ==> Meaning(a + b)[p] == Meaning(a)[p]
  {
    if b == [] {
      assert a + b == a;
    } else {
      var n := |b| - 1;
      StackAt(a, b[..n], p);
      assert (a + b)[..|a + b| - 1] == a + b[..n];
      OverlayAt(Meaning(a + b[..n]), b[n], p);
      OverlayAt(Meaning(b[..n]), b[n], p);
    }
  }

  lemma {:induction false} AloneAt(s: Segment, p: Path)
    requires forall f :: 0 <= f < |s| ==> !s[f].deleted
    ensures p in Alone(s) <==> exists r :: r in s && r.path == p
    ensures forall r :: r in s && r.path == p ==> p in Alone(s) && Alone(s)[p] == r
  {
    OverlayAt(map[], s, p);
    forall r | r in s && r.path == p ensures Has(s, p) && s[LowerBound(s, p)] == r {
      var f :| 0 <= f < |s| && s[f] == r;
      IndexIs(s, p, f);
    }
  }

  // ---------------------------------------------------------------------------------------------
  // Sorting files by path

  ghost predicate DistinctPaths(files: seq<File>)
  {
    forall i, j :: 0 <= i < j < |files| ==> files[i].path != files[j].path
  }

  function Insert(s: Segment, r: File): (t: Segment)
    requires !Has(s, r.path)
    ensures forall x :: x in t <==> x in s || x == r
    ensures |t| == |s| + 1
  {
    var i := LowerBound(s, r.path);
    InsertSorted(s, r);
    s[..i] + [r] + s[i..]
  }

  lemma {:induction false} InsertSorted(s: Segment, r: File)
    requires !Has(s, r.path)
    ensures Sorted(s[..LowerBound(s, r.path)] + [r] + s[LowerBound(s, r.path)..])
  {
    var i := LowerBound(s, r.path);
    var t := s[..i] + [r] + s[i..];
    forall j, k | 0 <= j < k < |t| ensures Less(t[j].path, t[k].path) {
      if j == i {
        if i < k - 1 { LessAtMost(r.path, s[i].path, s[k - 1].path); }
      } else if k == i {
        assert Less(s[j].path, r.path);
      } else {
        var j', k' := if j < i then j else j - 1, if k < i then k else k - 1;
        assert t[j] == s[j'] && t[k] == s[k'];
      }
    }
  }

  /** Files in path order. Paths are distinct, so every sorting algorithm gives this one. */
  function SortByPath(files: seq<File>): (s: Segment)
    requires DistinctPaths(files)
    ensures forall x :: x in s <==> x in files
    ensures |s| == |files|
  {
    if files == [] then []
    else
      var n := |files| - 1;
      var t := SortByPath(files[..n]);
      assert !Has(t, files[n].path) by {
        assert forall k :: 0 <= k < |t| ==> t[k] in t;
      }
      assert files == files[..n] + [files[n]];
      Insert(t, files[n])
  }

  // ---------------------------------------------------------------------------------------------
  // Pieces: the shards of the new base, in the making

  /** A shard of the new base; `from` is the old shard it reuses, if it is not freshly written. */
  datatype Piece = Piece(lo: Path, seg: Segment, from: Option<nat>)

  function Segs(ps: seq<Piece>): (s: seq<Segment>)
    ensures |s| == |ps| && forall i :: 0 <= i < |ps| ==> s[i] == ps[i].seg
  {
    seq(|ps|, i requires 0 <= i < |ps| => ps[i].seg)
  }

  function Los(ps: seq<Piece>): (s: seq<Path>)
    ensures |s| == |ps| && forall i :: 0 <= i < |ps| ==> s[i] == ps[i].lo
  {
    seq(|ps|, i requires 0 <= i < |ps| => ps[i].lo)
  }

  function Bytes(s: seq<File>): nat
  {
    if s == [] then 0 else Bytes(s[..|s| - 1]) + s[|s| - 1].bytes
  }

  /** Every record of every piece lies from lo on and, when there is a next bound, before it. */
  ghost predicate Within(ps: seq<Piece>, lo: Path, hi: Option<Path>)
  {
    && (forall i :: 0 <= i < |ps| ==> AtMost(lo, ps[i].lo) && (hi.Some? ==> Less(ps[i].lo, hi.value)))
    && (forall i, f :: 0 <= i < |ps| && 0 <= f < |ps[i].seg| && hi.Some? ==> Less(ps[i].seg[f].path, hi.value))
  }

  /** The records of the segments, one segment after the other. */
  function Concat(segs: seq<Segment>): seq<File>
  {
    if segs == [] then [] else Concat(segs[..|segs| - 1]) + segs[|segs| - 1]
  }

  /** Records that reach the size target with the last of them and not before. */
  ghost predicate Fills(seg: Segment, shardBytes: nat)
  {
    seg != [] && Bytes(seg) >= shardBytes && (|seg| > 1 ==> Bytes(seg[..|seg| - 1]) < shardBytes)
  }

  /** Every segment fills the size target, except that the last may fall short. */
  ghost predicate Cut(segs: seq<Segment>, shardBytes: nat)
  {
    && (forall i :: 0 <= i < |segs| - 1 ==> Fills(segs[i], shardBytes))
    && (segs != [] ==> var last := segs[|segs| - 1];
          last != [] && (|last| > 1 ==> Bytes(last[..|last| - 1]) < shardBytes))
  }

  /** A piece no longer than the size target allows: without its last record it is under the target. */
  ghost predicate Bounded(p: Piece, shardBytes: nat)
  {
    p.from.None? && p.seg != [] && (|p.seg| > 1 ==> Bytes(p.seg[..|p.seg| - 1]) < shardBytes)
  }

  lemma {:induction false} AppendPiece(ps: seq<Piece>, p: Piece)
    requires Laid(Segs(ps), Los(ps))
    requires forall f :: 0 <= f < |p.seg| ==> AtMost(p.lo, p.seg[f].path) && !p.seg[f].deleted
    requires EarlierThan(ps, p.lo)
    ensures Laid(Segs(ps + [p]), Los(ps + [p]))
    ensures Meaning(Segs(ps + [p])) == Overlay(Meaning(Segs(ps)), p.seg)
  {
    var qs := ps + [p];
    var n := |ps|;
    forall k, f | 0 <= k < |qs| && 0 <= f < |qs[k].seg|
      ensures InRange(Los(qs), k, qs[k].seg[f].path) && !qs[k].seg[f].deleted
    {
      if k < n {
        assert InRange(Los(ps), k, Segs(ps)[k][f].path) && !Segs(ps)[k][f].deleted;
      }
    }
    assert forall k, l :: 0 <= k < l < n ==> Less(Los(ps)[k], Los(ps)[l]);
    assert Segs(qs)[..n] == Segs(ps);
  }

  /** Live files from lo on and, when there is a next bound, before it. */
  ghost predicate Fits(files: seq<File>, lo: Path, hi: Option<Path>)
  {
    && (forall r :: r in files ==> AtMost(lo, r.path) && !r.deleted && (hi.Some? ==> Less(r.path, hi.value)))
    && (hi.Some? ==> Less(lo, hi.value))
  }

  /** build: writes the files of one old shard's range as one or more new shards; the first keeps lo. */
  method Build(lo: Path, ghost hi: Option<Path>, files: seq<File>, shardBytes: nat) returns (ps: seq<Piece>)
    requires DistinctPaths(files)
    requires Fits(files, lo, hi)
    ensures Laid(Segs(ps), Los(ps)) && Within(ps, lo, hi)
    ensures Meaning(Segs(ps)) == Alone(SortByPath(files))
    ensures Concat(Segs(ps)) == SortByPath(files) && Cut(Segs(ps), shardBytes)
    ensures forall i :: 0 <= i < |ps| ==> Bounded(ps[i], shardBytes)
  {
    hide *;
    var sorted := SortByPath(files);
    SortFits(files, lo, hi);
    ps := [];
    EmittedNone(lo, hi, sorted, shardBytes);
    var chunk: seq<File>, bytes: nat := [], 0;
    ghost var start := 0;
    for j := 0 to |sorted|
      invariant start <= j && chunk == sorted[start..j] && bytes == Bytes(chunk) && (start < j ==> bytes < shardBytes)
      invariant Emitted(ps, lo, hi, sorted, start, shardBytes) && AllFill(Segs(ps), shardBytes)
    {
      BytesSnoc(chunk, sorted[j]);
      bytes := bytes + sorted[j].bytes;
      ghost var before := chunk;
      chunk := chunk + [sorted[j]];
      if bytes >= shardBytes {
        ghost var was := ps;
        ps := Emit(ps, lo, hi, before, chunk, sorted, start, j + 1, shardBytes);
        FillsOne(was, ps, before, sorted[j], shardBytes);
        start, chunk, bytes := j + 1, [], 0;
      }
    }
    if chunk != [] {
      BytesOfFront(chunk);
      ghost var was := ps;
      ps := Emit(ps, lo, hi, chunk[..|chunk| - 1], chunk, sorted, start, |sorted|, shardBytes);
      CutLast(was, ps, shardBytes);
    } else {
      CutFull(ps, shardBytes);
    }
    EmittedAll(ps, lo, hi, sorted, shardBytes);
  }

  ghost predicate AllFill(segs: seq<Segment>, shardBytes: nat)
  {
    forall i :: 0 <= i < |segs| ==> Fills(segs[i], shardBytes)
  }

  lemma {:induction false} FillsOne(was: seq<Piece>, ps: seq<Piece>, before: seq<File>, r: File, shardBytes: nat)
    requires |ps| == |was| + 1 && ps[..|was|] == was && ps[|was|].seg == before + [r]
    requires AllFill(Segs(was), shardBytes) && Bytes(before + [r]) >= shardBytes && (before != [] ==> Bytes(before) < shardBytes)
    ensures AllFill(Segs(ps), shardBytes)
  {
    hide Bytes;
    assert (before + [r])[..|before|] == before;
    forall i | 0 <= i < |ps| ensures Fills(Segs(ps)[i], shardBytes) {
      if i < |was| { assert ps[..|was|][i] == was[i] && Fills(Segs(was)[i], shardBytes); }
    }
  }

  lemma {:induction false} CutLast(was: seq<Piece>, ps: seq<Piece>, shardBytes: nat)
    requires |ps| == |was| + 1 && ps[..|was|] == was && AllFill(Segs(was), shardBytes) && Bounded(ps[|was|], shardBytes)
    ensures Cut(Segs(ps), shardBytes)
  {
    hide Bytes;
    forall i | 0 <= i < |ps| - 1 ensures Fills(Segs(ps)[i], shardBytes) {
      assert ps[..|was|][i] == was[i] && Fills(Segs(was)[i], shardBytes);
    }
  }

  lemma {:induction false} CutFull(ps: seq<Piece>, shardBytes: nat)
    requires AllFill(Segs(ps), shardBytes)
    ensures Cut(Segs(ps), shardBytes)
  {
    hide Bytes;
    if ps != [] { assert Fills(Segs(ps)[|ps| - 1], shardBytes); }
  }

  /** The records and the size target determine the cut. */
  lemma {:induction false} CutIsUnique(a: seq<Segment>, b: seq<Segment>, shardBytes: nat)
    requires Cut(a, shardBytes) && Cut(b, shardBytes) && Concat(a) == Concat(b)
    ensures a == b
  {
    if a == [] || b == [] {
      ConcatNotEmpty(a, shardBytes);
      ConcatNotEmpty(b, shardBytes);
    } else {
      ConcatFirst(a);
      ConcatFirst(b);
      FirstAgrees(a, b, shardBytes);
      var n := |a[0]|;
      assert Concat(a)[n..] == Concat(a[1..]) && Concat(b)[n..] == Concat(b[1..]);
      CutRest(a, shardBytes);
      CutRest(b, shardBytes);
      CutIsUnique(a[1..], b[1..], shardBytes);
      assert a == [a[0]] + a[1..] && b == [b[0]] + b[1..];
    }
  }

  lemma {:induction false} CutRest(a: seq<Segment>, shardBytes: nat)
    requires Cut(a, shardBytes) && a != []
    ensures Cut(a[1..], shardBytes) && a[0] != []
  {
    hide Bytes;
    assert |a| > 1 ==> Fills(a[0], shardBytes);
  }

  lemma {:induction false} ConcatFirst(a: seq<Segment>)
    requires a != []
    ensures Concat(a) == a[0] + Concat(a[1..])
  {
    if |a| > 1 {
      var n := |a| - 1;
      ConcatFirst(a[..n]);
      assert a[..n][1..] == a[1..][..n - 1] && a[1..][n - 1] == a[n];
      assert Concat(a[1..]) == Concat(a[1..][..n - 1]) + a[n];
    } else {
      assert Concat([]) == [] && a[..0] == [];
    }
  }

  lemma {:induction false} ConcatNotEmpty(a: seq<Segment>, shardBytes: nat)
    requires Cut(a, shardBytes)
    ensures Concat(a) == [] <==> a == []
  {
    hide Bytes;
    if a != [] { assert a[|a| - 1] != []; }
  }

  /** The first segment ends with the record that reaches the target, or with the last record. */
  lemma {:induction false} FirstAgrees(a: seq<Segment>, b: seq<Segment>, shardBytes: nat)
    requires Cut(a, shardBytes) && Cut(b, shardBytes) && a != [] && b != [] && Concat(a) == a[0] + Concat(a[1..]) == b[0] + Concat(b[1..])
    ensures a[0] == b[0]
  {
    hide Bytes;
    if |a[0]| < |b[0]| { FirstIsLeast(a, b, shardBytes); }
    if |b[0]| < |a[0]| { FirstIsLeast(b, a, shardBytes); }
    assert Concat(a)[..|a[0]|] == a[0] && Concat(a)[..|b[0]|] == b[0];
  }

  lemma {:induction false} FirstIsLeast(a: seq<Segment>, b: seq<Segment>, shardBytes: nat)
    requires Cut(a, shardBytes) && Cut(b, shardBytes) && a != [] && b != [] && a[0] + Concat(a[1..]) == b[0] + Concat(b[1..])
    ensures |a[0]| >= |b[0]|
  {
    var n, m := |a[0]|, |b[0]|;
    assert |a| == 1 ==> Concat(a[1..]) == [] && |a[0] + Concat(a[1..])| == n;
    if n < m {
      assert Fills(a[0], shardBytes);
      assert b[0][..n] == (b[0] + Concat(b[1..]))[..n] == (a[0] + Concat(a[1..]))[..n] == a[0];
      assert |b| > 1 ==> Fills(b[0], shardBytes);
      BytesGrow(b[0], n, m - 1);
    }
  }

  lemma {:induction false} BytesGrow(s: seq<File>, i: nat, j: nat)
    requires i <= j <= |s|
    ensures Bytes(s[..i]) <= Bytes(s[..j])
  {
    if i < j {
      BytesGrow(s, i, j - 1);
      assert s[..j][..j - 1] == s[..j - 1];
    }
  }

  /** All segments but the last reach the target, which bounds how many there are. */
  lemma {:induction false} CutIsShort(segs: seq<Segment>, shardBytes: nat)
    requires Cut(segs, shardBytes)
    ensures segs != [] ==> (|segs| - 1) * shardBytes <= Bytes(Concat(segs))
  {
    if segs != [] {
      var n := |segs| - 1;
      FullAreShort(segs[..n], shardBytes);
      BytesConcat(Concat(segs[..n]), segs[n]);
    }
  }

  lemma {:induction false} FullAreShort(segs: seq<Segment>, shardBytes: nat)
    requires AllFill(segs, shardBytes)
    ensures |segs| * shardBytes <= Bytes(Concat(segs))
  {
    if segs != [] {
      var n := |segs| - 1;
      FullAreShort(segs[..n], shardBytes);
      BytesConcat(Concat(segs[..n]), segs[n]);
      assert Fills(segs[n], shardBytes);
      hide Fills, AllFill, Bytes, Concat;
      OneMore(n, shardBytes);
    }
  }

  lemma {:induction false} OneMore(n: nat, k: nat)
    ensures (n + 1) * k == n * k + k
  {
  }

  lemma {:induction false} BytesConcat(a: seq<File>, b: seq<File>)
    ensures Bytes(a + b) == Bytes(a) + Bytes(b)
  {
    if b == [] {
      assert a + b == a;
    } else {
      var n := |b| - 1;
      BytesConcat(a, b[..n]);
      assert (a + b)[..|a| + n] == a + b[..n];
    }
  }

  lemma {:induction false} BytesSnoc(s: seq<File>, r: File)
    ensures Bytes([]) == 0 && Bytes(s + [r]) == Bytes(s) + r.bytes
  {
    assert (s + [r])[..|s|] == s;
  }

  lemma {:induction false} BytesOfFront(s: seq<File>)
    requires s != []
    ensures Bytes(s[..|s| - 1]) <= Bytes(s)
  {
  }

  lemma {:induction false} SortFits(files: seq<File>, lo: Path, hi: Option<Path>)
    requires DistinctPaths(files) && Fits(files, lo, hi)
    ensures Fits(SortByPath(files), lo, hi)
  {
  }

  lemma {:induction false} EmittedNone(lo: Path, hi: Option<Path>, sorted: Segment, shardBytes: nat)
    ensures Emitted([], lo, hi, sorted, 0, shardBytes) && Bytes([]) == 0 && AllFill(Segs([]), shardBytes)
  {
    assert sorted[..0] == [] && Segs([]) == [];
  }

  lemma {:induction false} EmittedAll(ps: seq<Piece>, lo: Path, hi: Option<Path>, sorted: Segment, shardBytes: nat)
    requires Emitted(ps, lo, hi, sorted, |sorted|, shardBytes)
    ensures Laid(Segs(ps), Los(ps)) && Within(ps, lo, hi)
    ensures Meaning(Segs(ps)) == Alone(sorted) && Concat(Segs(ps)) == sorted
    ensures forall i :: 0 <= i < |ps| ==> Bounded(ps[i], shardBytes)
  {
    assert sorted[..|sorted|] == sorted;
  }

  /** The pieces lie within their range and before what is still to be written. */
  ghost predicate Ordered(ps: seq<Piece>, lo: Path, hi: Option<Path>, sorted: Segment, start: nat)
    requires start <= |sorted|
  {
    && Within(ps, lo, hi)
    && (start < |sorted| ==> EarlierThan(ps, sorted[start].path))
  }

  ghost predicate EarlierThan(ps: seq<Piece>, p: Path)
  {
    && (forall i :: 0 <= i < |ps| ==> Less(ps[i].lo, p))
    && (forall i, f :: 0 <= i < |ps| && 0 <= f < |ps[i].seg| ==> Less(ps[i].seg[f].path, p))
  }

  /** The pieces written so far hold sorted[..start], in order. */
  ghost predicate Emitted(ps: seq<Piece>, lo: Path, hi: Option<Path>, sorted: Segment, start: nat, shardBytes: nat)
    requires start <= |sorted|
  {
    && Laid(Segs(ps), Los(ps)) && Ordered(ps, lo, hi, sorted, start)
    && (ps == [] <==> start == 0)
    && Meaning(Segs(ps)) == Alone(sorted[..start]) && Concat(Segs(ps)) == sorted[..start]
    && (forall i :: 0 <= i < |ps| ==> Bounded(ps[i], shardBytes))
  }

  method Emit(ps: seq<Piece>, lo: Path, ghost hi: Option<Path>, ghost before: seq<File>, chunk: seq<File>,
              ghost sorted: Segment, ghost start: nat, ghost end: nat, shardBytes: nat)
    returns (qs: seq<Piece>)
    requires start < end <= |sorted| && Emitted(ps, lo, hi, sorted, start, shardBytes)
    requires Fits(sorted, lo, hi)
    requires chunk == sorted[start..end] == before + [sorted[end - 1]]
    requires before != [] ==> Bytes(before) < shardBytes
    ensures Emitted(qs, lo, hi, sorted, end, shardBytes)
    ensures |qs| == |ps| + 1 && qs[..|ps|] == ps && qs[|ps|].seg == chunk && Bounded(qs[|ps|], shardBytes)
  {
    hide Ordered, Meaning, Overlay, Laid, Bytes, Less, EarlierThan, AtMost;
    var p := Piece(if ps == [] then lo else chunk[0].path, chunk, None);
    qs := ps + [p];
    assert Segs(qs)[..|ps|] == Segs(ps) && sorted[..start] + chunk == sorted[..end];
    EmitOrdered(ps, p, lo, hi, sorted, start, end);
    EmitMeaning(ps, p, sorted, start, end);
    assert p.seg[..|p.seg| - 1] == before;
  }

  lemma {:induction false} EmitMeaning(ps: seq<Piece>, p: Piece, sorted: Segment, start: nat, end: nat)
    requires start < end <= |sorted| && p.seg == sorted[start..end]
    requires Laid(Segs(ps), Los(ps)) && Meaning(Segs(ps)) == Alone(sorted[..start]) && EarlierThan(ps, p.lo)
    requires forall f :: 0 <= f < |p.seg| ==> AtMost(p.lo, p.seg[f].path) && !p.seg[f].deleted
    ensures Laid(Segs(ps + [p]), Los(ps + [p])) && Meaning(Segs(ps + [p])) == Alone(sorted[..end])
  {
    AppendPiece(ps, p);
    hide Meaning, Overlay, Laid, Less;
    OverlayConcat(map[], sorted[..start], p.seg);
    assert sorted[..start] + p.seg == sorted[..end];
  }

  lemma {:induction false} EmitOrdered(ps: seq<Piece>, p: Piece, lo: Path, hi: Option<Path>, sorted: Segment, start: nat, end: nat)
    requires start < end <= |sorted| && Ordered(ps, lo, hi, sorted, start)
    requires p.seg == sorted[start..end] && p.lo == (if ps == [] then lo else sorted[start].path)
    requires Fits(sorted, lo, hi)
    ensures Ordered(ps + [p], lo, hi, sorted, end)
    ensures EarlierThan(ps, p.lo)
    ensures forall f :: 0 <= f < |p.seg| ==> AtMost(p.lo, p.seg[f].path) && !p.seg[f].deleted
  {
    hide Less;
    assert forall f :: 0 <= f < |sorted| ==> sorted[f] in sorted;
    if end < |sorted| {
      EarlierStill(ps, sorted[start].path, sorted[end].path);
      LessAtMost(lo, sorted[start].path, sorted[end].path);
    }
  }

  lemma {:induction false} EarlierStill(ps: seq<Piece>, p: Path, q: Path)
    requires Less(p, q) && EarlierThan(ps, p)
    ensures EarlierThan(ps, q)
  {
    forall i | 0 <= i < |ps| ensures Less(ps[i].lo, q) {
      Transitive(ps[i].lo, p, q);
    }
    forall i, f | 0 <= i < |ps| && 0 <= f < |ps[i].seg| ensures Less(ps[i].seg[f].path, q) {
      Transitive(ps[i].seg[f].path, p, q);
    }
  }

  // ---------------------------------------------------------------------------------------------
  // Gathering what each shard's range holds

  /** files is exactly the live records whose path is in keys and in the range of shard k. */
  ghost predicate Gathers(segs: seq<Segment>, los: seq<Path>, k: int, keys: set<Path>, files: seq<File>)
  {
    && DistinctPaths(files)
    && forall r :: r in files <==>
         r.path in keys && ShardIndex(los, r.path) == k && r.path in Meaning(segs) && Meaning(segs)[r.path] == r
  }

  function Get(m: map<int, seq<File>>, k: int): seq<File>
  {
    if k in m then m[k] else []
  }

  lemma {:induction false} GatherOne(segs: seq<Segment>, los: seq<Path>, k: int, keys: set<Path>, files: seq<File>, p: Path)
    requires Gathers(segs, los, k, keys, files) && p !in keys
    ensures var here := p in Meaning(segs) && ShardIndex(los, p) == k;
            Gathers(segs, los, k, keys + {p}, if here then files + [Meaning(segs)[p]] else files)
  {
    if p in Meaning(segs) { MeaningKeys(segs, p); }
    hide Meaning, ShardIndex;
    assert forall i :: 0 <= i < |files| ==> files[i] in files;
    var here := p in Meaning(segs) && ShardIndex(los, p) == k;
    var files' := if here then files + [Meaning(segs)[p]] else files;
    forall r ensures r in files' <==>
      r.path in keys + {p} && ShardIndex(los, r.path) == k && r.path in Meaning(segs) && Meaning(segs)[r.path] == r
    {
      assert r in files' <==> r in files || (here && r == Meaning(segs)[p]);
    }
  }

  /** The live overlay records by shard, and the shards an overlay record falls in (-1 without a base). */
  method GatherOverlays(sn: Snapshot) returns (byShard: map<int, seq<File>>, touched: set<int>)
    requires sn.Valid()
    ensures forall k :: Gathers(sn.segs, sn.los, k, sn.over.Keys, Get(byShard, k))
    ensures forall k :: k in touched <==> exists p :: p in sn.over && ShardIndex(sn.los, p) == k
  {
    hide *;
    byShard, touched := map[], {};
    ghost var done: set<Path> := {};
    var rest := sn.over.Keys;
    forall k ensures Gathers(sn.segs, sn.los, k, done, Get(byShard, k)) { GatherNone(sn.segs, sn.los, k); }
    while rest != {}
      invariant done == sn.over.Keys - rest && rest <= sn.over.Keys
      invariant forall k :: Gathers(sn.segs, sn.los, k, done, Get(byShard, k))
      invariant forall k :: k in touched <==> exists p :: p in done && ShardIndex(sn.los, p) == k
      decreases rest
    {
      var p :| p in rest;
      rest := rest - {p};
      assert sn.Shape() by { ValidShape(sn); }
      var k := sn.ShardFor(p);
      touched := touched + {k};
      var ref, ok := sn.Lookup(p);
      ghost var before := byShard;
      if ok {
        byShard := byShard[k := Get(byShard, k) + [At(sn.segs, ref)]];
      }
      forall j ensures Gathers(sn.segs, sn.los, j, done + {p}, Get(byShard, j)) {
        GatherOne(sn.segs, sn.los, j, done, Get(before, j), p);
        GetUpdate(before, k, Get(before, k) + (if ok then [At(sn.segs, ref)] else []), j);
      }
      ghost var old_done := done;
      done := done + {p};
      forall j ensures j in touched <==> exists q :: q in done && ShardIndex(sn.los, q) == j {
        if j == k { assert p in done && ShardIndex(sn.los, p) == j; }
        if q :| q in done && ShardIndex(sn.los, q) == j { assert q == p || q in old_done; }
      }
    }
    assert done == sn.over.Keys;
  }

  lemma {:induction false} GatherNone(segs: seq<Segment>, los: seq<Path>, k: int)
    ensures Gathers(segs, los, k, {}, Get(map[], k))
  {
  }

  lemma {:induction false} ValidShape(sn: Snapshot)
    requires sn.Valid()
    ensures sn.Shape()
  {
  }

  lemma {:induction false} GetUpdate(m: map<int, seq<File>>, k: int, v: seq<File>, j: int)
    ensures Get(m[k := v], j) == if j == k then v else Get(m, j)
  {
  }

  /** files is exactly the live records in the range of shard k. */
  ghost predicate Holds(segs: seq<Segment>, los: seq<Path>, k: int, files: seq<File>)
  {
    Gathers(segs, los, k, Meaning(segs).Keys, files)
  }

  /** Without a base every live path is in the overlays. */
  lemma {:induction false} AllInOverlays(sn: Snapshot, files: seq<File>)
    requires sn.Valid() && sn.nShards == 0 && Gathers(sn.segs, sn.los, -1, sn.over.Keys, files)
    ensures Holds(sn.segs, sn.los, -1, files)
  {
    forall p | p in Meaning(sn.segs) ensures p in sn.over { MeaningIsNewest(sn.segs, p); }
  }

  /** The newest record of a live path is in the overlays or in the shard whose range holds it. */
  lemma {:induction false} WhereLive(sn: Snapshot, p: Path)
    requires sn.Valid() && p in Meaning(sn.segs) && p !in sn.over
    ensures var k := ShardIndex(sn.los, p);
            0 <= k < sn.nShards && Has(sn.segs[k], p) && sn.segs[k][LowerBound(sn.segs[k], p)] == Meaning(sn.segs)[p]
  {
    MeaningIsNewest(sn.segs, p);
    BelowOverlays(sn.segs, sn.nShards, p);
    BaseNewest(sn.segs[..sn.nShards], sn.los, p);
  }

  /** A base record that no overlay has is live, in its own shard. */
  lemma {:induction false} BaseRecordLive(sn: Snapshot, k: nat, f: nat)
    requires sn.Valid() && k < sn.nShards && f < |sn.segs[k]|
    ensures var r := sn.segs[k][f];
            && ShardIndex(sn.los, r.path) == k
            && (sn.Live(k, f) <==> r.path !in sn.over)
            && (r.path !in sn.over ==> r.path in Meaning(sn.segs) && Meaning(sn.segs)[r.path] == r)
  {
    var r := sn.segs[k][f];
    sn.LiveIsCurrent(k, f);
    assert sn.segs[..sn.nShards][k] == sn.segs[k];
    assert InRange(sn.los, k, r.path);
    ShardIndexUnique(sn.los, r.path, k);
    IndexIs(sn.segs[k], r.path, f);
    MeaningIsNewest(sn.segs, r.path);
    if r.path !in sn.over {
      BaseNewest(sn.segs[..sn.nShards], sn.los, r.path);
      NewestAtLeast(sn.segs, k, r.path);
      BelowOverlays(sn.segs, sn.nShards, r.path);
    }
  }

  lemma {:induction false} NewestAtLeast(segs: seq<Segment>, k: nat, p: Path)
    requires k < |segs| && Has(segs[k], p)
    ensures Newest(segs, p).Some? && k <= Newest(segs, p).value.seg
  {
    var n := |segs| - 1;
    if !Has(segs[n], p) {
      NewestAtLeast(segs[..n], k, p);
    }
  }

  /** The live records of a touched shard's range: those gathered from the overlays and the shard's own. */
  method GatherShard(sn: Snapshot, k: nat, overlaid: seq<File>) returns (files: seq<File>)
    requires sn.Valid() && k < sn.nShards && k < |sn.segs|
    requires Gathers(sn.segs, sn.los, k, sn.over.Keys, overlaid)
    ensures Holds(sn.segs, sn.los, k, files)
  {
    hide *;
    var seg := sn.segs[k];
    ValidDead(sn);
    files := overlaid;
    ghost var keys := sn.over.Keys;
    for f := 0 to |seg|
      invariant Gathers(sn.segs, sn.los, k, keys, files)
      invariant forall p :: p in keys <==> p in sn.over || exists g :: 0 <= g < f && seg[g].path == p
    {
      BaseRecordLive(sn, k, f);
      if sn.Live(k, f) {
        NotYet(seg, f);
        GatherOne(sn.segs, sn.los, k, keys, files, seg[f].path);
        files := files + [seg[f]];
      }
      ghost var grown := keys + {seg[f].path};
      assert seg[f].path in sn.over ==> grown == keys;
      keys := grown;
    }
    GatheredAll(sn, k, keys, files);
  }

  lemma {:induction false} ValidDead(sn: Snapshot)
    requires sn.Valid()
    ensures |sn.dead| == |sn.segs| && sn.nShards <= |sn.segs| && |sn.los| == sn.nShards
  {
  }

  lemma {:induction false} NotYet(seg: Segment, f: nat)
    requires f < |seg|
    ensures forall g :: 0 <= g < f ==> seg[g].path != seg[f].path
  {
    Irreflexive(seg[f].path);
  }

  lemma {:induction false} GatheredAll(sn: Snapshot, k: nat, keys: set<Path>, files: seq<File>)
    requires sn.Valid() && k < sn.nShards && Gathers(sn.segs, sn.los, k, keys, files)
    requires forall p :: p in keys <==> p in sn.over || exists g :: 0 <= g < |sn.segs[k]| && sn.segs[k][g].path == p
    ensures Holds(sn.segs, sn.los, k, files)
  {
    forall p | p in Meaning(sn.segs) && ShardIndex(sn.los, p) == k ensures p in keys {
      if p !in sn.over { WhereLive(sn, p); }
    }
  }

  /** An untouched shard already is the live records of its range. */
  lemma {:induction false} UntouchedHolds(sn: Snapshot, k: nat)
    requires sn.Valid() && k < sn.nShards && !exists p :: p in sn.over && ShardIndex(sn.los, p) == k
    ensures Holds(sn.segs, sn.los, k, sn.segs[k])
  {
    var seg := sn.segs[k];
    forall i, j | 0 <= i < j < |seg| ensures seg[i].path != seg[j].path { NotYet(seg, j); }
    forall r ensures r in seg <==>
      r.path in Meaning(sn.segs) && ShardIndex(sn.los, r.path) == k && Meaning(sn.segs)[r.path] == r
    {
      if r in seg {
        var f :| 0 <= f < |seg| && seg[f] == r;
        BaseRecordLive(sn, k, f);
      }
      if r.path in Meaning(sn.segs) && ShardIndex(sn.los, r.path) == k && Meaning(sn.segs)[r.path] == r {
        WhereLive(sn, r.path);
      }
    }
  }

  // ---------------------------------------------------------------------------------------------
  // The new base, shard by shard

  /** m is what segs means, restricted to the paths whose shard index is below k. */
  ghost predicate Prefix(m: map<Path, File>, segs: seq<Segment>, los: seq<Path>, k: int)
  {
    forall p :: (p in m <==> p in Meaning(segs) && ShardIndex(los, p) < k) && (p in m ==> m[p] == Meaning(segs)[p])
  }

  /** m is what segs means, restricted to the range of shard k. */
  ghost predicate Slice(m: map<Path, File>, segs: seq<Segment>, los: seq<Path>, k: int)
  {
    forall p :: (p in m <==> p in Meaning(segs) && ShardIndex(los, p) == k) && (p in m ==> m[p] == Meaning(segs)[p])
  }

  lemma {:induction false} HoldsSlice(segs: seq<Segment>, los: seq<Path>, k: int, s: Segment)
    requires Holds(segs, los, k, s)
    ensures Slice(Alone(s), segs, los, k)
  {
    forall p ensures (p in Alone(s) <==> p in Meaning(segs) && ShardIndex(los, p) == k) && (p in Alone(s) ==> Alone(s)[p] == Meaning(segs)[p]) {
      forall f | 0 <= f < |s| ensures !s[f].deleted { assert s[f] in s; MeaningKeys(segs, s[f].path); }
      AloneAt(s, p);
      if p in Meaning(segs) {
        MeaningKeys(segs, p);
        if ShardIndex(los, p) == k { assert Meaning(segs)[p] in s; }
      }
    }
  }

  /** What is gathered for a shard fits its range. */
  lemma {:induction false} HoldsFits(segs: seq<Segment>, los: seq<Path>, k: nat, files: seq<File>)
    requires Bounds(los) && k < |los| && Holds(segs, los, k, files)
    ensures Fits(files, los[k], if k + 1 < |los| then Some(los[k + 1]) else None)
  {
    forall r | r in files ensures InRange(los, k, r.path) && !r.deleted {
      ShardIndexInRange(los, r.path);
      MeaningKeys(segs, r.path);
    }
  }

  lemma {:induction false} AppendMeaning(ps: seq<Piece>, qs: seq<Piece>, segs: seq<Segment>, los: seq<Path>, k: nat)
    requires Laid(Segs(qs), Los(qs))
    requires Prefix(Meaning(Segs(ps)), segs, los, k) && Slice(Meaning(Segs(qs)), segs, los, k)
    ensures Prefix(Meaning(Segs(ps + qs)), segs, los, k + 1)
  {
    assert Segs(ps + qs) == Segs(ps) + Segs(qs);
    forall p ensures var m := Meaning(Segs(ps + qs));
      (p in m <==> p in Meaning(segs) && ShardIndex(los, p) < k + 1) && (p in m ==> m[p] == Meaning(segs)[p])
    {
      StackAt(Segs(ps), Segs(qs), p);
    }
  }

  lemma {:induction false} AppendLaid(ps: seq<Piece>, qs: seq<Piece>, lo: Path, hi: Option<Path>)
    requires Laid(Segs(ps), Los(ps)) && EarlierThan(ps, lo)
    requires Laid(Segs(qs), Los(qs)) && Within(qs, lo, hi)
    requires hi.Some? ==> Less(lo, hi.value)
    ensures Laid(Segs(ps + qs), Los(ps + qs))
    ensures hi.Some? ==> EarlierThan(ps + qs, hi.value)
  {
    var rs := ps + qs;
    var n := |ps|;
    forall k, l | 0 <= k < l < |rs| ensures Less(rs[k].lo, rs[l].lo) {
      if k < n <= l { LessAtMost(rs[k].lo, lo, rs[l].lo); }
      else if l < n { assert Less(Los(ps)[k], Los(ps)[l]); }
      else { assert Less(Los(qs)[k - n], Los(qs)[l - n]); }
    }
    forall k, f | 0 <= k < |rs| && 0 <= f < |rs[k].seg| ensures InRange(Los(rs), k, rs[k].seg[f].path) && !rs[k].seg[f].deleted {
      if k < n {
        assert InRange(Los(ps), k, Segs(ps)[k][f].path) && !Segs(ps)[k][f].deleted;
        if k + 1 == n && n < |rs| { LessAtMost(rs[k].seg[f].path, lo, rs[n].lo); }
      } else {
        assert InRange(Los(qs), k - n, Segs(qs)[k - n][f].path) && !Segs(qs)[k - n][f].deleted;
      }
    }
    if hi.Some? { EarlierStill(ps, lo, hi.value); }
  }

  lemma {:induction false} ReusedPiece(sn: Snapshot, k: nat, p: Piece)
    requires sn.Valid() && k < sn.nShards && p == Piece(sn.los[k], sn.segs[k], Some(k))
    ensures var hi := if k + 1 < |sn.los| then Some(sn.los[k + 1]) else None;
            Laid(Segs([p]), Los([p])) && Within([p], sn.los[k], hi) && Meaning(Segs([p])) == Alone(p.seg)
  {
    assert sn.segs[..sn.nShards][k] == p.seg;
    assert forall f :: 0 <= f < |p.seg| ==> InRange(sn.los, k, p.seg[f].path) && !p.seg[f].deleted;
    assert Segs([p])[..0] == [] && Segs([p]) == [p.seg];
    assert Meaning([]) == map[];
  }

  /** Extending the range of the first shard down to "" makes a laid-out stack a base. */
  lemma {:induction false} FromTheStart(ps: seq<Piece>)
    requires ps != [] && Laid(Segs(ps), Los(ps))
    ensures var qs := ps[0 := ps[0].(lo := "")]; Base(Segs(qs), Los(qs)) && Segs(qs) == Segs(ps)
  {
    var qs := ps[0 := ps[0].(lo := "")];
    assert Segs(qs) == Segs(ps);
    forall k, l | 0 <= k < l < |qs| ensures Less(qs[k].lo, qs[l].lo) {
      assert Less(Los(ps)[k], Los(ps)[l]);
    }
    forall k, f | 0 <= k < |qs| && 0 <= f < |qs[k].seg| ensures InRange(Los(qs), k, qs[k].seg[f].path) && !qs[k].seg[f].deleted {
      assert InRange(Los(ps), k, Segs(ps)[k][f].path) && !Segs(ps)[k][f].deleted;
      PrefixIsFirst("", qs[k].seg[f].path);
    }
  }

  // ---------------------------------------------------------------------------------------------
  // The stable sort of the pieces by lower bound

  function InsertByLo(ps: seq<Piece>, x: Piece): seq<Piece>
  {
    if ps == [] || AtMost(ps[|ps| - 1].lo, x.lo) then ps + [x]
    else InsertByLo(ps[..|ps| - 1], x) + [ps[|ps| - 1]]
  }

  function SortByLo(ps: seq<Piece>): seq<Piece>
  {
    if ps == [] then [] else InsertByLo(SortByLo(ps[..|ps| - 1]), ps[|ps| - 1])
  }

  /** The pieces come out in order already. */
  lemma {:induction false} SortIsIdentity(ps: seq<Piece>)
    requires forall k, l :: 0 <= k < l < |ps| ==> Less(ps[k].lo, ps[l].lo)
    ensures SortByLo(ps) == ps
  {
    hide Less, InsertByLo;
    if ps != [] {
      var n := |ps| - 1;
      SortIsIdentity(ps[..n]);
      InsertLast(ps[..n], ps[n]);
      assert ps == ps[..n] + [ps[n]];
    }
  }

  lemma {:induction false} InsertLast(ps: seq<Piece>, x: Piece)
    requires ps != [] ==> Less(ps[|ps| - 1].lo, x.lo)
    ensures InsertByLo(ps, x) == ps + [x]
  {
  }

  // ---------------------------------------------------------------------------------------------
  // Compact

  /** Which old shards the pieces reuse: exactly the untouched ones, unchanged; everything else is fresh. */
  ghost predicate Reuses(ps: seq<Piece>, segs: seq<Segment>, touched: set<int>, k: nat, shardBytes: nat)
    requires k <= |segs|
  {
    && (forall i :: 0 <= i < |ps| ==> match ps[i].from
          case Some(j) => j < k && j !in touched && ps[i].seg == segs[j]
          case None => Bounded(ps[i], shardBytes))
    && (forall j :: 0 <= j < k && j !in touched ==> exists i :: 0 <= i < |ps| && ps[i].from == Some(j))
    && (forall i, j :: 0 <= i < j < |ps| && ps[i].from.Some? ==> ps[i].from != ps[j].from)
  }

  /** Two new pieces cut from the range of one old shard. */
  ghost predicate SameRange(los: seq<Path>, p: Piece, q: Piece)
  {
    && p.from.None? && q.from.None? && p.seg != [] && q.seg != []
    && ShardIndex(los, p.seg[0].path) == ShardIndex(los, q.seg[0].path)
  }

  /** Of two neighbours cut from one range the earlier reaches the size target. */
  ghost predicate Filled(ps: seq<Piece>, los: seq<Path>, shardBytes: nat)
  {
    forall i :: 0 <= i < |ps| - 1 && SameRange(los, ps[i], ps[i + 1]) ==> Bytes(ps[i].seg) >= shardBytes
  }

  function FreshCount(ps: seq<Piece>): nat
  {
    if ps == [] then 0 else FreshCount(ps[..|ps| - 1]) + if ps[|ps| - 1].from.None? then 1 else 0
  }

  function FreshBytes(ps: seq<Piece>): nat
  {
    if ps == [] then 0 else FreshBytes(ps[..|ps| - 1]) + if ps[|ps| - 1].from.None? then Bytes(ps[|ps| - 1].seg) else 0
  }

  function Below(touched: set<int>, k: int): set<int>
  {
    set j | j in touched && j < k
  }

  /** Only one new piece for each touched range can fall short of the size target. */
  ghost predicate Few(ps: seq<Piece>, ranges: nat, shardBytes: nat)
  {
    FreshCount(ps) * shardBytes <= FreshBytes(ps) + ranges * shardBytes
  }

  /** The new pieces of the ranges before the k-th are as large as they should be, and as few. */
  ghost predicate Shaped(ps: seq<Piece>, los: seq<Path>, touched: set<int>, k: int, shardBytes: nat)
  {
    && Filled(ps, los, shardBytes) && Few(ps, |Below(touched, k)|, shardBytes)
    && forall i :: 0 <= i < |ps| && ps[i].from.None? && ps[i].seg != [] ==> ShardIndex(los, ps[i].seg[0].path) < k
  }

  lemma {:induction false} FreshAppend(ps: seq<Piece>, qs: seq<Piece>)
    ensures FreshCount(ps + qs) == FreshCount(ps) + FreshCount(qs)
    ensures FreshBytes(ps + qs) == FreshBytes(ps) + FreshBytes(qs)
  {
    hide Bytes;
    if qs == [] {
      assert ps + qs == ps;
    } else {
      var n := |qs| - 1;
      FreshAppend(ps, qs[..n]);
      assert (ps + qs)[..|ps| + n] == ps + qs[..n];
    }
  }

  lemma {:induction false} AllNew(qs: seq<Piece>)
    requires forall i :: 0 <= i < |qs| ==> qs[i].from.None?
    ensures FreshCount(qs) == |qs| && FreshBytes(qs) == Bytes(Concat(Segs(qs)))
  {
    if qs != [] {
      var n := |qs| - 1;
      AllNew(qs[..n]);
      assert Segs(qs)[..n] == Segs(qs[..n]);
      BytesConcat(Concat(Segs(qs[..n])), qs[n].seg);
    }
  }

  lemma {:induction false} InConcat(segs: seq<Segment>, i: nat, r: File)
    requires i < |segs| && r in segs[i]
    ensures r in Concat(segs)
  {
    if i < |segs| - 1 { InConcat(segs[..|segs| - 1], i, r); }
  }

  lemma {:induction false} BelowGrows(touched: set<int>, k: int)
    ensures Below(touched, k + 1) == if k in touched then Below(touched, k) + {k} else Below(touched, k)
    ensures |Below(touched, k + 1)| == |Below(touched, k)| + if k in touched then 1 else 0
  {
  }

  lemma {:induction false} ShapedTouched(ps: seq<Piece>, qs: seq<Piece>, los: seq<Path>, touched: set<int>, k: int, shardBytes: nat)
    requires Shaped(ps, los, touched, k, shardBytes) && k in touched && Cut(Segs(qs), shardBytes)
    requires forall i :: 0 <= i < |qs| ==> qs[i].from.None?
    requires forall r :: r in Concat(Segs(qs)) ==> ShardIndex(los, r.path) == k
    ensures Shaped(ps + qs, los, touched, k + 1, shardBytes)
  {
    hide Bytes, FreshCount, FreshBytes, Below, ShardIndex;
    var rs, n := ps + qs, |ps|;
    forall i | 0 <= i < |qs| ensures qs[i].seg != [] && ShardIndex(los, qs[i].seg[0].path) == k {
      assert Segs(qs)[i] == qs[i].seg;
      assert i < |qs| - 1 ==> Fills(Segs(qs)[i], shardBytes);
      InConcat(Segs(qs), i, qs[i].seg[0]);
    }
    forall i | 0 <= i < |rs| - 1 && SameRange(los, rs[i], rs[i + 1]) ensures Bytes(rs[i].seg) >= shardBytes {
      if i < n - 1 {
        assert rs[i] == ps[i] && rs[i + 1] == ps[i + 1];
      } else if i >= n {
        assert Fills(Segs(qs)[i - n], shardBytes);
      }
    }
    FreshAppend(ps, qs);
    AllNew(qs);
    CutIsShort(Segs(qs), shardBytes);
    BelowGrows(touched, k);
    FewMore(FreshCount(ps), |qs|, FreshBytes(ps), Bytes(Concat(Segs(qs))), |Below(touched, k)|, shardBytes);
  }

  lemma {:induction false} FewMore(a: nat, b: nat, x: nat, y: nat, r: nat, k: nat)
    requires a * k <= x + r * k && (b > 0 ==> (b - 1) * k <= y)
    ensures (a + b) * k <= x + y + (r + 1) * k
  {
    if b > 0 {
      assert (a + b) * k == a * k + (b - 1) * k + k;
    }
  }

  lemma {:induction false} ShapedReused(ps: seq<Piece>, q: Piece, los: seq<Path>, touched: set<int>, k: int, shardBytes: nat)
    requires Shaped(ps, los, touched, k, shardBytes) && k !in touched && q.from.Some?
    ensures Shaped(ps + [q], los, touched, k + 1, shardBytes)
  {
    hide Bytes, Below, ShardIndex;
    FreshAppend(ps, [q]);
    assert [q][..0] == [] && FreshCount([q]) == 0 && FreshBytes([q]) == 0;
    BelowGrows(touched, k);
    forall i | 0 <= i < |ps| && SameRange(los, (ps + [q])[i], (ps + [q])[i + 1]) ensures Bytes((ps + [q])[i].seg) >= shardBytes {
      assert i < |ps| - 1 ==> (ps + [q])[i] == ps[i] && (ps + [q])[i + 1] == ps[i + 1];
    }
  }

  /** A longer list of ranges allows what a shorter one does. */
  lemma {:induction false} ShapedWhole(ps: seq<Piece>, los: seq<Path>, touched: set<int>, k: int, shardBytes: nat)
    requires Shaped(ps, los, touched, k, shardBytes)
    ensures Filled(ps, los, shardBytes) && Few(ps, |touched|, shardBytes)
  {
    hide Filled, FreshCount, FreshBytes;
    var b := Below(touched, k);
    assert touched == b + (touched - b);
    assert |touched| == |b| + |touched - b|;
    AtLeast(|b|, |touched|, shardBytes);
  }

  lemma {:induction false} AtLeast(a: nat, b: nat, k: nat)
    requires a <= b
    ensures a * k <= b * k
  {
  }

  lemma {:induction false} ShapedRenamed(ps: seq<Piece>, los: seq<Path>, ranges: nat, shardBytes: nat)
    requires ps != [] && Filled(ps, los, shardBytes) && Few(ps, ranges, shardBytes)
    ensures var qs := ps[0 := ps[0].(lo := "")]; Filled(qs, los, shardBytes) && Few(qs, ranges, shardBytes)
  {
    hide Bytes;
    var qs := ps[0 := ps[0].(lo := "")];
    forall i | 0 <= i < |qs| - 1 && SameRange(los, qs[i], qs[i + 1]) ensures Bytes(qs[i].seg) >= shardBytes {
      assert SameRange(los, ps[i], ps[i + 1]);
    }
    SameFresh(ps, qs);
  }

  lemma {:induction false} SameFresh(ps: seq<Piece>, qs: seq<Piece>)
    requires |ps| == |qs| && forall i :: 0 <= i < |ps| ==> ps[i].from == qs[i].from && ps[i].seg == qs[i].seg
    ensures FreshCount(ps) == FreshCount(qs) && FreshBytes(ps) == FreshBytes(qs)
  {
    hide Bytes;
    if ps != [] { SameFresh(ps[..|ps| - 1], qs[..|qs| - 1]); }
  }

  /** Compact: the new base, as pieces, unless there is nothing to fold. */
  method Compact(sn: Snapshot, shardBytes: nat) returns (changed: bool, ps: seq<Piece>, touched: set<int>)
    requires sn.Valid()
    ensures sn.nShards <= |sn.segs| && (changed <==> |sn.segs| != sn.nShards)
    ensures changed ==> Base(Segs(ps), Los(ps)) && Meaning(Segs(ps)) == Meaning(sn.segs) && ps != []
    ensures changed ==> forall k :: k in touched <==> exists p :: p in sn.over && ShardIndex(sn.los, p) == k
    ensures changed ==> Reuses(ps, sn.segs, touched, sn.nShards, shardBytes) || (ps == [EMPTY_PIECE] && Meaning(sn.segs) == map[])
    ensures changed ==> ps == [EMPTY_PIECE] || (Filled(ps, sn.los, shardBytes) && Few(ps, |touched|, shardBytes))
  {
    hide *;
    changed, ps, touched := |sn.segs| != sn.nShards, [], {};
    ValidDead(sn);
    if changed {
      ps, touched := Fold(sn, shardBytes);
    }
  }

  method Fold(sn: Snapshot, shardBytes: nat) returns (ps: seq<Piece>, touched: set<int>)
    requires sn.Valid()
    ensures Base(Segs(ps), Los(ps))
    ensures Meaning(Segs(ps)) == Meaning(sn.segs)
    ensures forall k :: k in touched <==> exists p :: p in sn.over && ShardIndex(sn.los, p) == k
    ensures sn.nShards <= |sn.segs|
    ensures ps != []
    ensures Reuses(ps, sn.segs, touched, sn.nShards, shardBytes) || (ps == [EMPTY_PIECE] && Meaning(sn.segs) == map[])
    ensures ps == [EMPTY_PIECE] || (Filled(ps, sn.los, shardBytes) && Few(ps, |touched|, shardBytes))
  {
    hide *;
    ValidDead(sn);
    var byShard;
    byShard, touched := GatherOverlays(sn);
    ps := [];
    NoPieces(sn, shardBytes, touched);
    if -1 in touched {
      ps := CompactUnbased(sn, Get(byShard, -1), shardBytes, touched);
    }
    ShapedStart(ps, sn.los, touched, shardBytes);
    UnbasedPrefix(sn, ps, touched);
    for k := 0 to sn.nShards
      invariant Laid(Segs(ps), Los(ps)) && Prefix(Meaning(Segs(ps)), sn.segs, sn.los, k)
      invariant k < sn.nShards ==> EarlierThan(ps, sn.los[k])
      invariant Reuses(ps, sn.segs, touched, k, shardBytes) && Shaped(ps, sn.los, touched, k, shardBytes)
    {
      ps := CompactShard(sn, k, ps, Get(byShard, k), shardBytes, touched);
    }
    LaidIncreasing(ps);
    SortIsIdentity(ps);
    ps := SortByLo(ps);
    WholePrefix(sn, ps);
    ShapedWhole(ps, sn.los, touched, sn.nShards, shardBytes);
    if ps != [] {
      FromTheStart(ps);
      ShapedRenamed(ps, sn.los, |touched|, shardBytes);
      ReusesRenamed(ps, sn.segs, touched, sn.nShards, shardBytes);
      ps := ps[0 := ps[0].(lo := "")];
    } else {
      EmptyBase();
      ps := [EMPTY_PIECE];
    }
  }

  /** Everything was deleted: one empty shard is the base. */
  const EMPTY_PIECE := Piece("", [], None)

  lemma {:induction false} LaidIncreasing(ps: seq<Piece>)
    requires Laid(Segs(ps), Los(ps))
    ensures forall k, l :: 0 <= k < l < |ps| ==> Less(ps[k].lo, ps[l].lo)
  {
    assert forall k :: 0 <= k < |ps| ==> Los(ps)[k] == ps[k].lo;
    forall k, l | 0 <= k < l < |ps| ensures Less(ps[k].lo, ps[l].lo) {
      assert Less(Los(ps)[k], Los(ps)[l]);
    }
  }

  lemma {:induction false} NoPieces(sn: Snapshot, shardBytes: nat, touched: set<int>)
    requires sn.Valid()
    ensures Laid(Segs([]), Los([])) && Reuses([], sn.segs, touched, 0, shardBytes) && Meaning(Segs([])) == map[]
    ensures forall lo :: EarlierThan([], lo)
  {
  }

  lemma {:induction false} EmptyBase()
    ensures var ps := [EMPTY_PIECE]; Base(Segs(ps), Los(ps)) && Meaning(Segs(ps)) == map[] && Meaning(Segs([])) == map[]
  {
    var ps := [EMPTY_PIECE];
    assert Segs(ps)[..0] == [];
  }

  /** The records of the overlays when there is no base yet. */
  method CompactUnbased(sn: Snapshot, files: seq<File>, shardBytes: nat, ghost touched: set<int>) returns (ps: seq<Piece>)
    requires sn.Valid() && -1 in touched && Gathers(sn.segs, sn.los, -1, sn.over.Keys, files)
    requires forall k :: k in touched <==> exists p :: p in sn.over && ShardIndex(sn.los, p) == k
    ensures sn.nShards == 0 && Laid(Segs(ps), Los(ps)) && Slice(Meaning(Segs(ps)), sn.segs, sn.los, -1)
    ensures Reuses(ps, sn.segs, touched, 0, shardBytes) && Shaped(ps, sn.los, touched, 0, shardBytes)
  {
    hide *;
    Unbased(sn, touched);
    AllInOverlays(sn, files);
    UnbasedFits(sn, files);
    ps := Build("", None, files, shardBytes);
    SortHolds(sn.segs, sn.los, -1, files);
    HoldsSlice(sn.segs, sn.los, -1, SortByPath(files));
    AllFresh(ps, sn.segs, touched, shardBytes);
    AllAreNew(ps, shardBytes);
    AreInRange(sn.segs, sn.los, -1, ps, files);
    NoneShaped(sn.los, touched, -1, shardBytes);
    ShapedTouched([], ps, sn.los, touched, -1, shardBytes);
    NothingBefore(ps);
  }

  lemma {:induction false} AllAreNew(ps: seq<Piece>, shardBytes: nat)
    requires forall i :: 0 <= i < |ps| ==> Bounded(ps[i], shardBytes)
    ensures forall i :: 0 <= i < |ps| ==> ps[i].from.None?
  {
    hide Bytes;
  }

  lemma {:induction false} NothingBefore(ps: seq<Piece>)
    ensures [] + ps == ps
  {
  }

  lemma {:induction false} NoneShaped(los: seq<Path>, touched: set<int>, k: int, shardBytes: nat)
    ensures Shaped([], los, touched, k, shardBytes)
  {
  }

  lemma {:induction false} ShapedStart(ps: seq<Piece>, los: seq<Path>, touched: set<int>, shardBytes: nat)
    requires -1 in touched ==> Shaped(ps, los, touched, 0, shardBytes)
    requires -1 !in touched ==> ps == []
    ensures Shaped(ps, los, touched, 0, shardBytes)
  {
  }

  /** The pieces cut from what is gathered for a range hold new records of that range only. */
  lemma {:induction false} AreInRange(segs: seq<Segment>, los: seq<Path>, k: int, ps: seq<Piece>, files: seq<File>)
    requires Holds(segs, los, k, files) && Concat(Segs(ps)) == SortByPath(files)
    ensures forall r :: r in Concat(Segs(ps)) ==> ShardIndex(los, r.path) == k
  {
  }

  lemma {:induction false} Unbased(sn: Snapshot, touched: set<int>)
    requires sn.Valid() && -1 in touched && forall k :: k in touched <==> exists p :: p in sn.over && ShardIndex(sn.los, p) == k
    ensures sn.nShards == 0 && sn.los == []
  {
  }

  lemma {:induction false} UnbasedFits(sn: Snapshot, files: seq<File>)
    requires Holds(sn.segs, sn.los, -1, files)
    ensures Fits(files, "", None) && DistinctPaths(files)
  {
    forall r | r in files ensures !r.deleted && AtMost("", r.path) {
      MeaningKeys(sn.segs, r.path);
      PrefixIsFirst("", r.path);
    }
  }

  lemma {:induction false} SortHolds(segs: seq<Segment>, los: seq<Path>, k: int, files: seq<File>)
    requires Holds(segs, los, k, files)
    ensures DistinctPaths(files) && Holds(segs, los, k, SortByPath(files))
  {
    var s := SortByPath(files);
    forall i, j | 0 <= i < j < |s| ensures s[i].path != s[j].path { NotYet(s, j); }
  }

  lemma {:induction false} AllFresh(ps: seq<Piece>, segs: seq<Segment>, touched: set<int>, shardBytes: nat)
    requires forall i :: 0 <= i < |ps| ==> Bounded(ps[i], shardBytes)
    ensures Reuses(ps, segs, touched, 0, shardBytes)
  {
  }

  /** Before the first shard: the pieces so far hold everything there is when there is no base, and nothing otherwise. */
  lemma {:induction false} UnbasedPrefix(sn: Snapshot, ps: seq<Piece>, touched: set<int>)
    requires sn.Valid()
    requires forall k :: k in touched <==> exists p :: p in sn.over && ShardIndex(sn.los, p) == k
    requires -1 in touched ==> sn.nShards == 0 && Slice(Meaning(Segs(ps)), sn.segs, sn.los, -1)
    requires -1 !in touched ==> ps == []
    ensures Prefix(Meaning(Segs(ps)), sn.segs, sn.los, 0)
    ensures 0 < sn.nShards ==> EarlierThan(ps, sn.los[0])
  {
    if -1 !in touched {
      forall p | p in Meaning(sn.segs) ensures 0 <= ShardIndex(sn.los, p) {
        if p !in sn.over { WhereLive(sn, p); }
      }
    }
  }

  /** One shard: reused as it is when no overlay record falls in its range, otherwise rewritten. */
  method CompactShard(sn: Snapshot, k: nat, ps: seq<Piece>, overlaid: seq<File>, shardBytes: nat, touched: set<int>)
    returns (rs: seq<Piece>)
    requires sn.Valid() && k < sn.nShards && sn.nShards <= |sn.segs| == |sn.dead| && |sn.los| == sn.nShards
    requires forall j :: j in touched <==> exists p :: p in sn.over && ShardIndex(sn.los, p) == j
    requires Gathers(sn.segs, sn.los, k, sn.over.Keys, overlaid)
    requires Laid(Segs(ps), Los(ps)) && Prefix(Meaning(Segs(ps)), sn.segs, sn.los, k)
    requires EarlierThan(ps, sn.los[k]) && Reuses(ps, sn.segs, touched, k, shardBytes) && Shaped(ps, sn.los, touched, k, shardBytes)
    ensures Laid(Segs(rs), Los(rs)) && Prefix(Meaning(Segs(rs)), sn.segs, sn.los, k + 1)
    ensures k + 1 < sn.nShards ==> EarlierThan(rs, sn.los[k + 1])
    ensures Reuses(rs, sn.segs, touched, k + 1, shardBytes) && Shaped(rs, sn.los, touched, k + 1, shardBytes)
  {
    hide *;
    ghost var hi := if k + 1 < |sn.los| then Some(sn.los[k + 1]) else None;
    var qs: seq<Piece>;
    SnBounds(sn, k);
    if k !in touched {
      UntouchedHolds(sn, k);
      HoldsSlice(sn.segs, sn.los, k, sn.segs[k]);
      qs := [Piece(sn.los[k], sn.segs[k], Some(k))];
      ReusedPiece(sn, k, qs[0]);
      ShapedReused(ps, qs[0], sn.los, touched, k, shardBytes);
    } else {
      var files := GatherShard(sn, k, overlaid);
      HoldsFits(sn.segs, sn.los, k, files);
      SortHolds(sn.segs, sn.los, k, files);
      HoldsSlice(sn.segs, sn.los, k, SortByPath(files));
      qs := Build(sn.los[k], hi, files, shardBytes);
      AllAreNew(qs, shardBytes);
      AreInRange(sn.segs, sn.los, k, qs, files);
      ShapedTouched(ps, qs, sn.los, touched, k, shardBytes);
    }
    AppendMeaning(ps, qs, sn.segs, sn.los, k);
    AppendLaid(ps, qs, sn.los[k], hi);
    ReusesMore(ps, qs, sn.segs, touched, k, shardBytes);
    rs := ps + qs;
  }

  lemma {:induction false} SnBounds(sn: Snapshot, k: nat)
    requires sn.Valid() && k < sn.nShards
    ensures Bounds(sn.los) && (k + 1 < |sn.los| ==> Less(sn.los[k], sn.los[k + 1]))
  {
  }

  lemma {:induction false} ReusesMore(ps: seq<Piece>, qs: seq<Piece>, segs: seq<Segment>, touched: set<int>, k: nat, shardBytes: nat)
    requires k < |segs| && Reuses(ps, segs, touched, k, shardBytes)
    requires if k in touched then forall i :: 0 <= i < |qs| ==> Bounded(qs[i], shardBytes)
             else |qs| == 1 && qs[0].from == Some(k) && qs[0].seg == segs[k]
    ensures Reuses(ps + qs, segs, touched, k + 1, shardBytes)
  {
    var rs := ps + qs;
    forall j | 0 <= j < k + 1 && j !in touched ensures exists i :: 0 <= i < |rs| && rs[i].from == Some(j) {
      if j < k {
        var i :| 0 <= i < |ps| && ps[i].from == Some(j);
        assert rs[i].from == Some(j);
      } else {
        assert rs[|ps|] == qs[0];
      }
    }
  }

  lemma {:induction false} ReusesRenamed(ps: seq<Piece>, segs: seq<Segment>, touched: set<int>, k: nat, shardBytes: nat)
    requires ps != [] && k <= |segs| && Reuses(ps, segs, touched, k, shardBytes)
    ensures Reuses(ps[0 := ps[0].(lo := "")], segs, touched, k, shardBytes)
  {
    var qs := ps[0 := ps[0].(lo := "")];
    assert forall i :: 0 <= i < |ps| ==> qs[i].from == ps[i].from && qs[i].seg == ps[i].seg;
    forall j | 0 <= j < k && j !in touched ensures exists i :: 0 <= i < |qs| && qs[i].from == Some(j) {
      var i :| 0 <= i < |ps| && ps[i].from == Some(j);
      assert qs[i].from == Some(j);
    }
  }

  lemma {:induction false} WholePrefix(sn: Snapshot, ps: seq<Piece>)
    requires sn.Valid() && Prefix(Meaning(Segs(ps)), sn.segs, sn.los, sn.nShards)
    ensures Meaning(Segs(ps)) == Meaning(sn.segs)
  {
    assert forall p :: ShardIndex(sn.los, p) < sn.nShards;
  }
}
