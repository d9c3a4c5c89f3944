/**
 Segments and what a stack of them means.

 A segment is a strictly path-sorted sequence of file records. A generation is a stack of segments: base
 shards with disjoint path ranges, then overlays, oldest first. The specification of everything in the
 store is the plain map obtained by laying each segment over the ones before it.
 */
module Layers {
  import opened Common
  import opened Order
  import Search

  /** Everything a record stores besides its path and tombstone flag; the store never looks inside. */
  type Facts = int

  /** One file record. `bytes` is the writer's size estimate for it. */
  datatype File = File(path: Path, deleted: bool, facts: Facts, bytes: nat)

  predicate Sorted(s: seq<File>)
  {
    forall i, j :: 0 <= i < j < |s| ==> Less(s[i].path, s[j].path)
  }

  type Segment = s: seq<File> | Sorted(s)

  datatype Ref = Ref(seg: nat, file: nat)

  // ---------------------------------------------------------------------------------------------
  // One segment

  /** The number of records before p. */
  function LowerBound(s: Segment, p: Path): (i: nat)
    ensures i <= |s|
    ensures forall k :: 0 <= k < i ==> Less(s[k].path, p)
    ensures forall k :: i <= k < |s| ==> AtMost(p, s[k].path)
  {
    if s == [] then 0
    else
      var n := |s| - 1;
      if Less(s[n].path, p) then
        Before(s, p);
        |s|
      else
        Trichotomy(s[n].path, p);
        LowerBound(s[..n], p)
  }

  lemma {:induction false} Before(s: Segment, p: Path)
    requires s != [] && Less(s[|s| - 1].path, p)
    ensures forall k :: 0 <= k < |s| ==> Less(s[k].path, p)
  {
    forall k | 0 <= k < |s| - 1 ensures Less(s[k].path, p) {
      Transitive(s[k].path, s[|s| - 1].path, p);
    }
  }

  predicate Has(s: Segment, p: Path)
  {
    var i := LowerBound(s, p);
    i < |s| && s[i].path == p
  }

  /** A record is found exactly at its own index. */
  lemma {:induction false} IndexIs(s: Segment, p: Path, f: nat)
    requires f < |s| && s[f].path == p
    ensures Has(s, p) && LowerBound(s, p) == f
  {
    var i := LowerBound(s, p);
    Irreflexive(p);
    if i < f {
      Trichotomy(s[i].path, s[f].path);
    }
  }

  /** Segment.FindFile. */
  method FindFile(s: Segment, p: Path) returns (i: nat, ok: bool)
    ensures i == LowerBound(s, p) && ok == Has(s, p)
  {
    forall k: nat, l: nat | k <= l < |s| && AtMost(p, s[k].path)
      ensures AtMost(p, s[l].path)
    {
      if k < l { LessAtMost(p, s[k].path, s[l].path); }
    }
    var f := (k: nat) requires k < |s| => AtMost(p, s[k].path);
    i := Search.First(|s|, f);
    ghost var j := LowerBound(s, p);
    assert j < |s| ==> f(j);
    if i < |s| {
      Trichotomy(s[i].path, p);
      assert f(i);
    }
    ok := i < |s| && s[i].path == p;
  }

  // ---------------------------------------------------------------------------------------------
  // A stack of segments

  function Put(m: map<Path, File>, r: File): map<Path, File>
  {
    if r.deleted then m - {r.path} else m[r.path := r]
  }

  /** m with the records of s laid over it. */
  function Overlay(m: map<Path, File>, s: seq<File>): map<Path, File>
  {
    if s == [] then m else Put(Overlay(m, s[..|s| - 1]), s[|s| - 1])
  }

  /** What a stack of segments means: the live record of every path. */
  function Meaning(segs: seq<Segment>): map<Path, File>
  {
    if segs == [] then map[] else Overlay(Meaning(segs[..|segs| - 1]), segs[|segs| - 1])
  }

  /** The position of the newest record for p, tombstones included. */
  function Newest(segs: seq<Segment>, p: Path): (r: Option<Ref>)
    ensures r.Some? ==> r.value.seg < |segs| && r.value.file < |segs[r.value.seg]|
    ensures r.Some? ==> segs[r.value.seg][r.value.file].path == p
  {
    if segs == [] then None
    else
      var n := |segs| - 1;
      if Has(segs[n], p) then Some(Ref(n, LowerBound(segs[n], p))) else Newest(segs[..n], p)
  }

  /** Record f of segment i is the current record of its path: nothing newer, and not a tombstone. */
  predicate Current(segs: seq<Segment>, i: nat, f: nat)
    requires i < |segs| && f < |segs[i]|
  {
    !segs[i][f].deleted && Newest(segs, segs[i][f].path) == Some(Ref(i, f))
  }

  lemma {:induction false} OverlayAt(m: map<Path, File>, s: Segment, p: Path)
    ensures !Has(s, p) ==> (p in Overlay(m, s) <==> p in m) && (p in m ==> Overlay(m, s)[p] == m[p])
    ensures Has(s, p) ==>
              var r := s[LowerBound(s, p)];
              (p in Overlay(m, s) <==> !r.deleted) && (!r.deleted ==> Overlay(m, s)[p] == r)
  {
    if s != [] {
      var n := |s| - 1;
      OverlayAt(m, s[..n], p);
      if s[n].path == p {
        IndexIs(s, p, n);
      } else if Has(s, p) {
        IndexIs(s[..n], p, LowerBound(s, p));
      } else if Has(s[..n], p) {
        IndexIs(s, p, LowerBound(s[..n], p));
      }
    }
  }

  /** The map and the positions agree: a path is live exactly when its newest record is not a tombstone. */
  lemma {:induction false} MeaningIsNewest(segs: seq<Segment>, p: Path)
    ensures p in Meaning(segs) <==> Newest(segs, p).Some? && !At(segs, Newest(segs, p).value).deleted
    ensures p in Meaning(segs) ==> Meaning(segs)[p] == At(segs, Newest(segs, p).value)
  {
    if segs != [] {
      var n := |segs| - 1;
      MeaningIsNewest(segs[..n], p);
      OverlayAt(Meaning(segs[..n]), segs[n], p);
    }
  }

  function At(segs: seq<Segment>, r: Ref): File
    requires r.seg < |segs| && r.file < |segs[r.seg]|
  {
    segs[r.seg][r.file]
  }

  /** Every live record carries its own path. */
  lemma {:induction false} MeaningKeys(segs: seq<Segment>, p: Path)
    requires p in Meaning(segs)
    ensures Meaning(segs)[p].path == p && !Meaning(segs)[p].deleted
  {
    MeaningIsNewest(segs, p);
  }

  // ---------------------------------------------------------------------------------------------
  // Growing the top segment by one record

  lemma {:induction false} Extended(a: seq<Segment>, s: Segment, r: File, p: Path)
    requires Sorted(s + [r])
    ensures Newest(a + [s + [r]], p) == if p == r.path then Some(Ref(|a|, |s|)) else Newest(a + [s], p)
  {
    var t: Segment := s + [r];
    assert (a + [t])[..|a|] == a && (a + [s])[..|a|] == a;
    if p == r.path {
      IndexIs(t, p, |s|);
    } else if Has(t, p) {
      assert LowerBound(t, p) < |s|;
      IndexIs(s, p, LowerBound(t, p));
    } else if Has(s, p) {
      IndexIs(t, p, LowerBound(s, p));
    }
  }

  lemma {:induction false} ExtendedMeaning(a: seq<Segment>, s: Segment, r: File)
    requires Sorted(s + [r])
    ensures Meaning(a + [s + [r]]) == Put(Meaning(a + [s]), r)
  {
    var t: Segment := s + [r];
    assert (a + [t])[..|a|] == a && (a + [s])[..|a|] == a;
    assert t[..|s|] == s;
  }

  lemma {:induction false} EmptyTop(a: seq<Segment>, p: Path)
    ensures Newest(a + [[]], p) == Newest(a, p)
    ensures Meaning(a + [[]]) == Meaning(a)
  {
    var e: Segment := [];
    assert (a + [e])[..|a|] == a;
  }

  // ---------------------------------------------------------------------------------------------
  // The base: shards with disjoint path ranges

  /** Shard k holds only paths from los[k] up to, not including, los[k + 1]. */
  predicate InRange(los: seq<Path>, k: nat, p: Path)
    requires k < |los|
  {
    AtMost(los[k], p) && (k + 1 < |los| ==> Less(p, los[k + 1]))
  }

  predicate Increasing(los: seq<Path>)
  {
    forall k, l :: 0 <= k < l < |los| ==> Less(los[k], los[l])
  }

  predicate Bounds(los: seq<Path>)
  {
    (los != [] ==> los[0] == "") && Increasing(los)
  }

  /** Bounds strictly increase, every shard keeps to its range, and there are no tombstones. */
  predicate Laid(shards: seq<Segment>, los: seq<Path>)
  {
    && |shards| == |los|
    && Increasing(los)
    && (forall k, f :: 0 <= k < |shards| && 0 <= f < |shards[k]| ==>
          InRange(los, k, shards[k][f].path) && !shards[k][f].deleted)
  }

  /** A well-formed base: laid out from "" on. */
  predicate Base(shards: seq<Segment>, los: seq<Path>)
  {
    Laid(shards, los) && Bounds(los)
  }

  /** The shard whose range holds p, or -1 without shards. */
  function ShardIndex(los: seq<Path>, p: Path): (k: int)
    ensures -1 <= k < |los| && (los != [] ==> 0 <= k)
  {
    if |los| <= 1 then |los| - 1
    else if AtMost(los[|los| - 1], p) then |los| - 1
    else ShardIndex(los[..|los| - 1], p)
  }

  lemma {:induction false} ShardIndexInRange(los: seq<Path>, p: Path)
    requires los != [] && Bounds(los)
    ensures InRange(los, ShardIndex(los, p), p)
  {
    if |los| > 1 {
      var n := |los| - 1;
      Trichotomy(p, los[n]);
      if !AtMost(los[n], p) {
        ShardIndexInRange(los[..n], p);
      }
    } else {
      PrefixIsFirst("", p);
    }
  }

  /** Ranges are disjoint, so the range test identifies the shard. */
  lemma {:induction false} ShardIndexUnique(los: seq<Path>, p: Path, k: nat)
    requires Bounds(los) && k < |los| && InRange(los, k, p)
    ensures ShardIndex(los, p) == k
  {
    var i := ShardIndex(los, p);
    ShardIndexInRange(los, p);
    if i < k {
      Apart(los, i, k, p);
    } else if k < i {
      Apart(los, k, i, p);
    }
  }

  lemma {:induction false} Apart(los: seq<Path>, i: nat, k: nat, p: Path)
    requires Bounds(los) && i < k < |los|
    ensures !(InRange(los, i, p) && InRange(los, k, p))
  {
    if InRange(los, i, p) && InRange(los, k, p) {
      LessAtMost(p, los[i + 1], los[k]);
      Trichotomy(p, los[k]);
    }
  }
}
