/**
 One immutable view of an index generation.

 A snapshot routes a path through its overlay map, then through the one base shard whose range holds it, and
 keeps the records that are shadowed or tombstoned in sparse dead sets. Snapshots derived from one another
 share dead sets until one of them is first written.
 */
module Snapshots {
  import opened Common
  import opened Order
  import opened Layers
  import Search

  datatype Route = Route(ref: Ref, deleted: bool)

  /** The overlay map holds exactly the paths whose newest record is in an overlay, routed to that record. */
  ghost predicate RoutesOf(segs: seq<Segment>, n: nat, over: map<Path, Route>)
  {
    && (forall p :: p in over <==> Newest(segs, p).Some? && n <= Newest(segs, p).value.seg)
    && (forall p :: p in over ==> over[p] == Route(Newest(segs, p).value, At(segs, Newest(segs, p).value).deleted))
  }

  /** A record is dead exactly when it is not the current record of its path. */
  ghost predicate DeadOf(segs: seq<Segment>, dead: seq<set<nat>>)
  {
    && |segs| == |dead|
    && (forall i: nat, f: nat :: i < |segs| ==> (f in dead[i] <==> f < |segs[i]| && !Current(segs, i, f)))
  }

  /** The routes, dead sets and live count that a stack of segments with n base shards determines. */
  ghost predicate Coherent(segs: seq<Segment>, n: nat, over: map<Path, Route>, dead: seq<set<nat>>, live: int)
  {
    n <= |segs| && RoutesOf(segs, n, over) && DeadOf(segs, dead) && live == |Meaning(segs)|
  }

  /** Coherence leaves no freedom: however a snapshot came about, its contents are a function of its segments. */
  lemma {:induction false} CoherentIsUnique(segs: seq<Segment>, n: nat,
                         over: map<Path, Route>, dead: seq<set<nat>>, live: int,
                         over': map<Path, Route>, dead': seq<set<nat>>, live': int)
    requires Coherent(segs, n, over, dead, live) && Coherent(segs, n, over', dead', live')
    ensures over == over' && dead == dead' && live == live'
  {
    assert forall p :: p in over <==> p in over';
    forall i | 0 <= i < |dead| ensures dead[i] == dead'[i] {
      assert forall f: nat :: f in dead[i] <==> f in dead'[i];
    }
  }

  // ---------------------------------------------------------------------------------------------
  // Base shards

  /** In a well-formed base the newest record of p can only be in the shard whose range holds p. */
  lemma {:induction false} BaseNewest(shards: seq<Segment>, los: seq<Path>, p: Path)
    requires Base(shards, los)
    ensures var k := ShardIndex(los, p);
            Newest(shards, p) == if 0 <= k && Has(shards[k], p) then Some(Ref(k, LowerBound(shards[k], p))) else None
  {
    if shards != [] {
      var n := |shards| - 1;
      if Has(shards[n], p) {
        ShardIndexUnique(los, p, n);
      } else {
        assert Base(shards[..n], los[..n]) by { FrontIsBase(shards, los); }
        BaseNewest(shards[..n], los[..n], p);
        if 0 <= ShardIndex(los, p) < n {
          ShardIndexInRange(los, p);
          ShardIndexUnique(los[..n], p, ShardIndex(los, p));
        } else if n > 0 {
          var k := ShardIndex(los[..n], p);
          if Has(shards[k], p) { ShardIndexUnique(los, p, k); }
        }
      }
    }
  }

  lemma {:induction false} FrontIsBase(shards: seq<Segment>, los: seq<Path>)
    requires Base(shards, los) && shards != []
    ensures Base(shards[..|shards| - 1], los[..|los| - 1])
  {
    var n := |shards| - 1;
    forall k, f | 0 <= k < n && 0 <= f < |shards[k]|
      ensures InRange(los[..n], k, shards[k][f].path)
    {
      assert InRange(los, k, shards[k][f].path);
    }
  }

  /** A base alone is coherent with nothing routed and nothing dead. */
  lemma {:induction false} BaseCoherent(shards: seq<Segment>, los: seq<Path>, dead: seq<set<nat>>)
    requires Base(shards, los) && |dead| == |shards| && forall i :: 0 <= i < |dead| ==> dead[i] == {}
    ensures Coherent(shards, |shards|, map[], dead, Records(shards))
  {
    forall i: nat, f: nat | i < |shards| && f < |shards[i]| ensures Current(shards, i, f) {
      var p := shards[i][f].path;
      assert InRange(los, i, p) && !shards[i][f].deleted;
      ShardIndexUnique(los, p, i);
      BaseNewest(shards, los, p);
      IndexIs(shards[i], p, f);
    }
    BaseCount(shards, los);
  }

  /** The number of records in a stack. */
  function Records(segs: seq<Segment>): nat
  {
    if segs == [] then 0 else Records(segs[..|segs| - 1]) + |segs[|segs| - 1]|
  }

  lemma {:induction false} BaseCount(shards: seq<Segment>, los: seq<Path>)
    requires Base(shards, los)
    ensures |Meaning(shards)| == Records(shards)
  {
    if shards != [] {
      var n := |shards| - 1;
      FrontIsBase(shards, los);
      BaseCount(shards[..n], los[..n]);
      forall f | 0 <= f < |shards[n]| ensures shards[n][f].path !in Meaning(shards[..n]) && !shards[n][f].deleted {
        var p := shards[n][f].path;
        assert InRange(los, n, p);
        MeaningIsNewest(shards[..n], p);
        BaseNewest(shards[..n], los[..n], p);
        if Newest(shards[..n], p).Some? {
          var k := Newest(shards[..n], p).value.seg;
          assert InRange(los, k, p);
          Apart(los, k, n, p);
        }
      }
      DisjointCount(Meaning(shards[..n]), shards[n]);
    }
  }

  lemma {:induction false} DisjointCount(m: map<Path, File>, s: Segment)
    requires forall f :: 0 <= f < |s| ==> s[f].path !in m && !s[f].deleted
    ensures |Overlay(m, s)| == |m| + |s|
  {
    if s != [] {
      var n := |s| - 1;
      DisjointCount(m, s[..n]);
      OverlayAt(m, s[..n], s[n].path);
      NotBefore(s, n);
      PutCount(Overlay(m, s[..n]), s[n]);
    }
  }

  lemma {:induction false} NotBefore(s: Segment, n: nat)
    requires n < |s|
    ensures !Has(s[..n], s[n].path)
  {
    forall k | 0 <= k < n ensures s[k].path != s[n].path { Irreflexive(s[n].path); assert Less(s[k].path, s[n].path); }
  }

  lemma {:induction false} PutCount(m: map<Path, File>, r: File)
    ensures |Put(m, r)| == |m| - (if r.path in m then 1 else 0) + (if r.deleted then 0 else 1)
  {
    var rest := m - {r.path};
    assert rest.Keys == m.Keys - {r.path};
    assert m[r.path := r].Keys == rest.Keys + {r.path};
    assert |rest.Keys| == |rest| && |m.Keys| == |m| && |m[r.path := r].Keys| == |m[r.path := r]|;
  }

  // ---------------------------------------------------------------------------------------------
  // One record of a new top segment

  function Mark(dead: seq<set<nat>>, i: nat, f: nat): seq<set<nat>>
    requires i < |dead|
  {
    dead[i := dead[i] + {f}]
  }

  /** b and c are stacks with the same segments except that c's top segment has one more record, r. */
  ghost predicate OneMore(b: seq<Segment>, c: seq<Segment>, r: File)
  {
    && |b| == |c| > 0 && (forall i :: 0 <= i < |b| - 1 ==> b[i] == c[i]) && c[|c| - 1] == b[|b| - 1] + [r]
    && (forall p :: Newest(c, p) == if p == r.path then Some(Ref(|b| - 1, |b[|b| - 1]|)) else Newest(b, p))
    && Meaning(c) == Put(Meaning(b), r)
  }

  lemma {:induction false} Grow(a: seq<Segment>, s: Segment, r: File)
    requires Sorted(s + [r])
    ensures OneMore(a + [s], a + [s + [r]], r)
  {
    forall p ensures Newest(a + [s + [r]], p) == if p == r.path then Some(Ref(|a|, |s|)) else Newest(a + [s], p) {
      Extended(a, s, r, p);
    }
    ExtendedMeaning(a, s, r);
  }

  /** Marking records of the segments below ti is marking them in that part of the dead sets. */
  lemma {:induction false} MarkedUpto(d0: seq<set<nat>>, d2: seq<set<nat>>, was: Option<Ref>, live: bool, deleted: bool, ti: nat, f: nat)
    requires ti < |d0| && (live ==> was.Some? && was.value.seg <= ti)
    requires var d1 := if live then Mark(d0, was.value.seg, was.value.file) else d0;
             d2 == if deleted then Mark(d1, ti, f) else d1
    ensures var d1 := if live then Mark(d0, was.value.seg, was.value.file) else d0;
            && |d2| == |d1| == |d0| && (forall i :: ti < i < |d0| ==> d2[i] == d0[i])
            && d1[..ti + 1] == (if live then Mark(d0[..ti + 1], was.value.seg, was.value.file) else d0[..ti + 1])
            && d2[..ti + 1] == if deleted then Mark(d1[..ti + 1], ti, f) else d1[..ti + 1]
  {
  }

  /** An empty top segment contributes nothing. */
  lemma {:induction false} StartTop(a: seq<Segment>, e: Segment, n: nat, over: map<Path, Route>, dead: seq<set<nat>>, live: int)
    requires e == [] && Coherent(a, n, over, dead, live)
    ensures Coherent(a + [e], n, over, dead + [{}], live)
  {
    var b := a + [e];
    forall p ensures Newest(b, p) == Newest(a, p) { EmptyTop(a, p); }
    EmptyTop(a, "");
    hide Newest, Meaning;
    assert RoutesOf(b, n, over);
    forall i: nat, f: nat | i < |b| ensures f in (dead + [{}])[i] <==> f < |b[i]| && !Current(b, i, f) {
      if i < |a| { assert b[i] == a[i]; assert f < |a[i]| ==> (Current(b, i, f) <==> Current(a, i, f)); }
    }
  }

  lemma {:induction false} StepRoutes(b: seq<Segment>, c: seq<Segment>, r: File, n: nat, over: map<Path, Route>)
    requires OneMore(b, c, r) && n < |b| && RoutesOf(b, n, over)
    ensures RoutesOf(c, n, over[r.path := Route(Ref(|b| - 1, |b[|b| - 1]|), r.deleted)])
  {
    hide Newest, Meaning;
    var over' := over[r.path := Route(Ref(|b| - 1, |b[|b| - 1]|), r.deleted)];
    forall p | p in over' ensures over'[p] == Route(Newest(c, p).value, At(c, Newest(c, p).value).deleted) {
      if p != r.path { assert p in over; }
    }
  }

  lemma {:induction false} StepDead(b: seq<Segment>, c: seq<Segment>, r: File, dead: seq<set<nat>>, dead1: seq<set<nat>>, dead2: seq<set<nat>>)
    requires OneMore(b, c, r) && DeadOf(b, dead)
    requires var was := Newest(b, r.path);
             dead1 == if was.Some? && !At(b, was.value).deleted then Mark(dead, was.value.seg, was.value.file) else dead
    requires dead2 == if r.deleted then Mark(dead1, |b| - 1, |b[|b| - 1]|) else dead1
    ensures DeadOf(c, dead2)
  {
    hide Newest, Meaning;
    forall i: nat, f: nat | i < |c| ensures f in dead2[i] <==> f < |c[i]| && !Current(c, i, f) {
      if i == |b| - 1 && f == |b[i]| {
        assert f !in dead[i];
      } else if f < |c[i]| {
        assert f < |b[i]| && c[i][f] == b[i][f];
      }
    }
  }

  /**
   What routing record r, the next one of the top segment, must do: retire the record that was live for its path,
   if any, route the path to r, and count r unless it is a tombstone (which is dead from the start).
   */
  lemma {:induction false} StepCoherent(b: seq<Segment>, c: seq<Segment>, r: File, n: nat,
                     over: map<Path, Route>, dead: seq<set<nat>>, live: int,
                     dead1: seq<set<nat>>, dead2: seq<set<nat>>)
    requires OneMore(b, c, r) && n < |b| && Coherent(b, n, over, dead, live)
    requires var was := Newest(b, r.path);
             dead1 == if was.Some? && !At(b, was.value).deleted then Mark(dead, was.value.seg, was.value.file) else dead
    requires dead2 == if r.deleted then Mark(dead1, |b| - 1, |b[|b| - 1]|) else dead1
    ensures var was := Newest(b, r.path);
            Coherent(c, n, over[r.path := Route(Ref(|b| - 1, |b[|b| - 1]|), r.deleted)], dead2,
                     live - (if was.Some? && !At(b, was.value).deleted then 1 else 0) + (if r.deleted then 0 else 1))
  {
    MeaningIsNewest(b, r.path);
    StepRoutes(b, c, r, n, over);
    StepDead(b, c, r, dead, dead1, dead2);
    PutCount(Meaning(b), r);
  }

  /** Where nothing in the overlays has a path, its newest record is in the base. */
  lemma {:induction false} BelowOverlays(segs: seq<Segment>, n: nat, p: Path)
    requires n <= |segs| && (Newest(segs, p).Some? ==> Newest(segs, p).value.seg < n)
    ensures Newest(segs, p) == Newest(segs[..n], p)
  {
    if n < |segs| {
      var m := |segs| - 1;
      BelowOverlays(segs[..m], n, p);
      assert segs[..m][..n] == segs[..n];
    } else {
      assert segs[..n] == segs;
    }
  }

  lemma {:induction false} BoundsPastIsMonotone(los: seq<Path>, p: Path)
    requires Bounds(los)
    ensures forall k, l :: 0 <= k <= l < |los| && Less(p, los[k]) ==> Less(p, los[l])
  {
    forall k, l | 0 <= k <= l < |los| && Less(p, los[k]) ensures Less(p, los[l]) {
      if k < l { Transitive(p, los[k], los[l]); }
    }
  }

  lemma {:induction false} DistinctCount<T>(s: seq<T>, all: set<T>)
    requires Distinct(s) && forall x :: x in all <==> x in s
    ensures |all| == |s|
  {
    if s == [] {
      assert all == {};
    } else {
      var n := |s| - 1;
      DistinctCount(s[..n], all - {s[n]});
    }
  }

  /** As many current records as live paths. */
  lemma {:induction false} CurrentCount(segs: seq<Segment>, refs: seq<Ref>)
    requires Distinct(refs)
    requires forall r :: r in refs <==> r.seg < |segs| && r.file < |segs[r.seg]| && Current(segs, r.seg, r.file)
    ensures |refs| == |Meaning(segs)|
  {
    var paths := seq(|refs|, k requires 0 <= k < |refs| => assert refs[k] in refs; At(segs, refs[k]).path);
    forall p ensures p in Meaning(segs).Keys <==> p in paths {
      MeaningIsNewest(segs, p);
      if p in Meaning(segs) {
        var r := Newest(segs, p).value;
        assert r in refs;
        var k :| 0 <= k < |refs| && refs[k] == r;
        assert paths[k] == p;
      }
      if p in paths {
        var k :| 0 <= k < |paths| && paths[k] == p;
        assert refs[k] in refs;
      }
    }
    forall i, j | 0 <= i < j < |paths| ensures paths[i] != paths[j] {
      assert refs[i] in refs && refs[j] in refs;
    }
    DistinctCount(paths, Meaning(segs).Keys);
  }

  // ---------------------------------------------------------------------------------------------
  // The snapshot

  /** A heap-allocated set of dead records, shared between snapshots until one of them writes it. */
  class DeadSet {
    var files: set<nat>

    constructor (files: set<nat>)
      ensures this.files == files
    {
      this.files := files;
    }
  }

  class Snapshot {
    const gen: nat
    const segs: seq<Segment>
    const los: seq<Path>
    const nShards: nat
    var over: map<Path, Route>
    var dead: seq<DeadSet?>
    var nLive: int

    ghost predicate Shape()
      reads this
    {
      nShards <= |segs| == |dead| && Base(segs[..nShards], los)
    }

    ghost function DeadFiles(): (d: seq<set<nat>>)
      reads this, dead
      ensures |d| == |dead|
    {
      seq(|dead|, i requires 0 <= i < |dead| reads this, dead => if dead[i] == null then {} else dead[i].files)
    }

    ghost predicate Valid()
      reads this, dead
    {
      Shape() && Coherent(segs, nShards, over, DeadFiles(), nLive)
    }

    /** The dead sets of the segments in `cloned` are this snapshot's own. */
    ghost predicate Owns(cloned: set<nat>)
      reads this
    {
      && (forall i :: i in cloned ==> i < |dead| && dead[i] != null)
      && (forall i, j :: i in cloned && 0 <= j < |dead| && i != j ==> dead[i] != dead[j])
    }

    /** The overlay segments up to the first f records of segment ti: what has been routed so far. */
    static ghost function Upto(segs: seq<Segment>, ti: nat, f: nat): seq<Segment>
      requires ti < |segs| && f <= |segs[ti]|
    {
      var s: Segment := segs[ti][..f];
      segs[..ti] + [s]
    }

    /** Coherent with the segments below ti; nothing is dead in the others. */
    ghost predicate Below(ti: nat)
      requires ti <= |segs|
      reads this, dead
    {
      && |dead| == |segs|
      && Coherent(segs[..ti], nShards, over, DeadFiles()[..ti], nLive)
      && forall i :: ti <= i < |dead| ==> DeadFiles()[i] == {}
    }

    /** Coherent with what has been routed so far; nothing is dead in the segments above. */
    ghost predicate Routed(ti: nat, f: nat)
      requires ti < |segs| && f <= |segs[ti]|
      reads this, dead
    {
      && Shape() && nShards <= ti
      && Coherent(Upto(segs, ti, f), nShards, over, DeadFiles()[..ti + 1], nLive)
      && forall i :: ti < i < |dead| ==> DeadFiles()[i] == {}
    }

    /** newSnapshot: shards in range order, then overlays, oldest first. */
    constructor Fresh(gen: nat, shards: seq<Segment>, los: seq<Path>, overlays: seq<Segment>)
      requires Base(shards, los)
      ensures Valid() && this.gen == gen && segs == shards + overlays && this.los == los && nShards == |shards|
    {
      this.gen := gen;
      this.segs := shards + overlays;
      this.los := los;
      this.nShards := |shards|;
      over := map[];
      dead := seq(|shards| + |overlays|, _ => null);
      nLive := 0;
      new;
      hide Coherent, Base;
      for i := 0 to |shards|
        invariant nLive == Records(shards[..i])
        invariant over == map[] && dead == seq(|segs|, _ => null)
      {
        assert shards[..i + 1][..i] == shards[..i];
        nLive := nLive + |shards[i]|;
      }
      assert shards[..|shards|] == shards && segs[..nShards] == shards;
      assert forall i :: 0 <= i < |dead| ==> DeadFiles()[i] == {};
      BaseCoherent(shards, los, DeadFiles()[..|shards|]);
      ApplyAll();
    }

    /** The overlays of a new snapshot, oldest first. */
    method ApplyAll()
      requires Shape() && Below(nShards) && forall d :: d in dead ==> d == null
      modifies this
      ensures Valid()
    {
      hide Coherent, Base;
      var cloned: set<nat> := {};
      for i := nShards to |segs|
        invariant Shape() && Owns(cloned) && forall j :: j in cloned ==> fresh(dead[j])
        invariant Below(i)
      {
        StartOverlay(i);
        cloned := Apply(i, cloned);
      }
      assert segs[..|segs|] == segs && DeadFiles()[..|segs|] == DeadFiles();
    }

    lemma {:induction false} StartOverlay(ti: nat)
      requires Shape() && nShards <= ti < |segs| && Below(ti)
      ensures Routed(ti, 0)
    {
      var e: Segment := segs[ti][..0];
      StartTop(segs[..ti], e, nShards, over, DeadFiles()[..ti], nLive);
      hide Coherent, Base;
      assert DeadFiles()[..ti] + [{}] == DeadFiles()[..ti + 1];
    }

    /** withOverlay: the next snapshot, with one more segment on top. Nothing that existed before is written. */
    constructor Stack(prev: Snapshot, gen: nat, top: Segment)
      requires prev.Valid()
      ensures Valid() && this.gen == gen && segs == prev.segs + [top] && los == prev.los && nShards == prev.nShards
      ensures prev.over == old(prev.over) && prev.DeadFiles() == old(prev.DeadFiles()) && prev.nLive == old(prev.nLive) && prev.Valid()
    {
      this.gen := gen;
      this.segs := prev.segs + [top];
      this.los := prev.los;
      this.nShards := prev.nShards;
      over := prev.over;
      dead := prev.dead + [null];
      nLive := prev.nLive;
      new;
      hide Coherent, Base;
      var ti := |prev.segs|;
      assert segs[..ti] == prev.segs && segs[..nShards] == prev.segs[..nShards];
      assert DeadFiles()[..ti] == prev.DeadFiles();
      StartOverlay(ti);
      var _ := Apply(ti, {});
      assert segs[..ti + 1] == segs && DeadFiles()[..ti + 1] == DeadFiles();
    }

    /** apply: routes the records of overlay segment ti over everything older. */
    method Apply(ti: nat, cloned0: set<nat>) returns (cloned: set<nat>)
      requires nShards <= ti < |segs| && Routed(ti, 0) && Owns(cloned0)
      modifies this, set i: nat | i in cloned0 && i < |dead| :: dead[i]
      ensures Shape() && Below(ti + 1)
      ensures Owns(cloned) && cloned0 <= cloned
      ensures forall i :: i in cloned ==> (i in cloned0 && dead[i] == old(dead[i])) || fresh(dead[i])
    {
      hide Coherent, Base;
      cloned := cloned0;
      for f := 0 to |segs[ti]|
        invariant Routed(ti, f) && Owns(cloned) && cloned0 <= cloned
        invariant forall i :: i in cloned ==> (i in cloned0 && dead[i] == old(dead[i])) || fresh(dead[i])
      {
        cloned := RouteOne(ti, f, cloned);
      }
      assert segs[ti][..|segs[ti]|] == segs[ti];
      assert segs[..ti] + [segs[ti]] == segs[..ti + 1];
    }

    /** One iteration of apply: retire the record that was current for the path, then route it. */
    method RouteOne(ti: nat, f: nat, cloned0: set<nat>) returns (cloned: set<nat>)
      requires nShards <= ti < |segs| && f < |segs[ti]| && Routed(ti, f) && Owns(cloned0)
      modifies this, set i: nat | i in cloned0 && i < |dead| :: dead[i]
      ensures Routed(ti, f + 1) && Owns(cloned) && cloned0 <= cloned
      ensures forall i :: i in cloned ==> (i in cloned0 && dead[i] == old(dead[i])) || fresh(dead[i])
    {
      hide *;
      var r := segs[ti][f];
      ghost var b, c := Upto(segs, ti, f), Upto(segs, ti, f + 1);
      ghost var was := Newest(b, r.path);
      ghost var live := was.Some? && !At(b, was.value).deleted;
      ghost var o0, d0, n0 := over, DeadFiles(), nLive;
      Routing(ti, f);
      RoutedParts(ti, f);
      cloned := Redirect(r, Ref(ti, f), was, live, cloned0);
      MarkedUpto(d0, DeadFiles(), was, live, r.deleted, ti, f);
      ghost var d1 := if live then Mark(d0, was.value.seg, was.value.file) else d0;
      StepCoherent(b, c, r, nShards, o0, d0[..ti + 1], n0, d1[..ti + 1], DeadFiles()[..ti + 1]);
      RoutedFrom(ti, f + 1);
    }

    lemma {:induction false} RoutedParts(ti: nat, f: nat)
      requires nShards <= ti < |segs| && f < |segs[ti]| && Routed(ti, f)
      ensures Shape() && |dead| == |segs| && |DeadFiles()| == |dead|
      ensures Coherent(Upto(segs, ti, f), nShards, over, DeadFiles()[..ti + 1], nLive)
      ensures forall i :: ti < i < |dead| ==> DeadFiles()[i] == {}
      ensures |Upto(segs, ti, f)| == ti + 1 && |Upto(segs, ti, f)[ti]| == f
    {
    }

    lemma {:induction false} RoutedFrom(ti: nat, f: nat)
      requires Shape() && nShards <= ti < |segs| && f <= |segs[ti]| && |DeadFiles()| == |segs|
      requires Coherent(Upto(segs, ti, f), nShards, over, DeadFiles()[..ti + 1], nLive)
      requires forall i :: ti < i < |dead| ==> DeadFiles()[i] == {}
      ensures Routed(ti, f)
    {
    }

    /** Retires the record `was`, the newest so far for r's path, if it is live, and routes the path to r at `to`. */
    method Redirect(r: File, to: Ref, ghost was: Option<Ref>, ghost live: bool, cloned0: set<nat>) returns (cloned: set<nat>)
      requires Shape() && Owns(cloned0) && to.seg < |dead|
      requires r.path in over ==> was == Some(over[r.path].ref) && live == !over[r.path].deleted
      requires r.path !in over ==> was == Newest(segs[..nShards], r.path) && live == was.Some?
      requires was.Some? ==> was.value.seg < |dead|
      requires r.path !in over && live ==> was.value.file !in DeadFiles()[was.value.seg]
      modifies this, set i: nat | i in cloned0 && i < |dead| :: dead[i]
      ensures |dead| == old(|dead|) && Owns(cloned) && cloned0 <= cloned
      ensures forall i :: i in cloned ==> (i in cloned0 && dead[i] == old(dead[i])) || fresh(dead[i])
      ensures over == old(over)[r.path := Route(to, r.deleted)]
      ensures var d1 := if live then Mark(old(DeadFiles()), was.value.seg, was.value.file) else old(DeadFiles());
              DeadFiles() == if r.deleted then Mark(d1, to.seg, to.file) else d1
      ensures nLive == old(nLive) - (if live then 1 else 0) + (if r.deleted then 0 else 1)
    {
      hide Base, Newest;
      cloned := Retire(r.path, was, live, cloned0);
      over := over[r.path := Route(to, r.deleted)];
      if r.deleted {
        cloned := MarkDead(to.seg, to.file, cloned);
      } else {
        nLive := nLive + 1;
      }
    }

    /** Retires the record `was`, the newest so far for path, if it is live. */
    method Retire(path: Path, ghost was: Option<Ref>, ghost live: bool, cloned0: set<nat>) returns (cloned: set<nat>)
      requires Shape() && Owns(cloned0)
      requires path in over ==> was == Some(over[path].ref) && live == !over[path].deleted
      requires path !in over ==> was == Newest(segs[..nShards], path) && live == was.Some?
      requires was.Some? ==> was.value.seg < |dead|
      requires path !in over && live ==> was.value.file !in DeadFiles()[was.value.seg]
      modifies this`dead, this`nLive, set i: nat | i in cloned0 && i < |dead| :: dead[i]
      ensures |dead| == old(|dead|) && Owns(cloned) && cloned0 <= cloned
      ensures forall i :: i in cloned ==> (i in cloned0 && dead[i] == old(dead[i])) || fresh(dead[i])
      ensures DeadFiles() == if live then Mark(old(DeadFiles()), was.value.seg, was.value.file) else old(DeadFiles())
      ensures nLive == old(nLive) - if live then 1 else 0
    {
      hide Base, Newest;
      cloned := cloned0;
      if path in over {
        var prev := over[path];
        if !prev.deleted {
          cloned := MarkDead(prev.ref.seg, prev.ref.file, cloned);
          nLive := nLive - 1;
        }
      } else {
        var k, fi, ok := BaseLookup(path);
        if ok && Live(k, fi) {
          cloned := MarkDead(k, fi, cloned);
          nLive := nLive - 1;
        }
      }
    }

    /** What apply finds when it looks for the record that was current before segs[ti][f]. */
    lemma {:induction false} Routing(ti: nat, f: nat)
      requires nShards <= ti < |segs| && f < |segs[ti]| && Routed(ti, f)
      ensures var b, r := Upto(segs, ti, f), segs[ti][f];
              var was := Newest(b, r.path);
              && OneMore(b, Upto(segs, ti, f + 1), r)
              && (r.path in over ==> was == Some(over[r.path].ref) && At(b, was.value).deleted == over[r.path].deleted)
              && (r.path !in over ==> was == Newest(segs[..nShards], r.path))
              && (r.path !in over && was.Some? ==> !At(b, was.value).deleted && was.value.file !in DeadFiles()[was.value.seg])
    {
      var s: Segment := segs[ti][..f];
      var r := segs[ti][f];
      var b := Upto(segs, ti, f);
      var was := Newest(b, r.path);
      assert segs[ti][..f + 1] == s + [r];
      Grow(segs[..ti], s, r);
      if r.path !in over {
        assert b[..nShards] == segs[..nShards];
        BelowOverlays(b, nShards, r.path);
        if was.Some? {
          assert Current(b, was.value.seg, was.value.file);
          assert DeadFiles()[..ti + 1][was.value.seg] == DeadFiles()[was.value.seg];
        }
      }
    }

    /** markDead: copies the dead set of a segment the first time this snapshot writes it. */
    method MarkDead(seg: nat, file: nat, cloned0: set<nat>) returns (cloned: set<nat>)
      requires seg < |dead| && Owns(cloned0)
      modifies this`dead, set i: nat | i in cloned0 && i < |dead| :: dead[i]
      ensures |dead| == old(|dead|) && DeadFiles() == Mark(old(DeadFiles()), seg, file)
      ensures cloned == cloned0 + {seg} && Owns(cloned)
      ensures forall i :: i in cloned ==> (i in cloned0 && dead[i] == old(dead[i])) || fresh(dead[i])
    {
      cloned := cloned0;
      if seg !in cloned {
        var d := new DeadSet(if dead[seg] == null then {} else dead[seg].files);
        dead := dead[seg := d];
        cloned := cloned + {seg};
      }
      dead[seg].files := dead[seg].files + {file};
    }

    // -------------------------------------------------------------------------------------------
    // Queries

    /** ShardFor: the shard whose range holds path, or -1 without shards. */
    method ShardFor(path: Path) returns (k: int)
      requires Shape()
      ensures k == ShardIndex(los, path)
    {
      if nShards == 0 {
        return -1;
      }
      BoundsPastIsMonotone(los, path);
      var past := (k: nat) requires k < |los| => Less(path, los[k]);
      var i := Search.First(nShards, past);
      k := if i == 0 then 0 else i - 1;
      PrefixIsFirst("", path);
      Trichotomy(path, los[k]);
      assert 0 < i ==> !past(i - 1);
      assert i < nShards ==> past(i);
      ShardIndexUnique(los, path, k);
    }

    method BaseLookup(path: Path) returns (k: nat, f: nat, ok: bool)
      requires Shape()
      ensures Newest(segs[..nShards], path) == if ok then Some(Ref(k, f)) else None
    {
      var shard := ShardFor(path);
      BaseNewest(segs[..nShards], los, path);
      if shard < 0 {
        return 0, 0, false;
      }
      k := shard;
      f, ok := FindFile(segs[k], path);
    }

    /** Live: record f of segment i is neither shadowed nor a tombstone. */
    predicate Live(i: nat, f: nat)
      requires i < |dead|
      reads this, dead
    {
      dead[i] == null || f !in dead[i].files
    }

    /** Live means current: nothing newer for its path, and not a tombstone. */
    lemma {:induction false} LiveIsCurrent(i: nat, f: nat)
      requires Valid() && i < |segs| && f < |segs[i]|
      ensures Live(i, f) <==> Current(segs, i, f)
    {
      assert f in DeadFiles()[i] <==> !Live(i, f);
    }

    /** NumFiles: the number of live paths. */
    function NumFiles(): (n: int)
      requires Valid()
      reads this, dead
      ensures n == |Meaning(segs)|
    {
      nLive
    }

    /** Lookup: the live record of a path. */
    method Lookup(path: Path) returns (ref: Ref, ok: bool)
      requires Valid()
      ensures ok <==> path in Meaning(segs)
      ensures ok ==> ref.seg < |segs| && ref.file < |segs[ref.seg]|
      ensures ok ==> At(segs, ref) == Meaning(segs)[path] && Current(segs, ref.seg, ref.file)
    {
      MeaningIsNewest(segs, path);
      if path in over {
        ref, ok := over[path].ref, !over[path].deleted;
      } else {
        BelowOverlays(segs, nShards, path);
        var k, f, found := BaseLookup(path);
        ref, ok := Ref(k, f), found;
      }
    }

    /** Refs: every live record once, shards in path order, then overlays. */
    method Refs() returns (out: seq<Ref>)
      requires Valid()
      ensures forall i, j :: 0 <= i < j < |out| ==> out[i] != out[j]
      ensures forall r :: r in out <==> r.seg < |segs| && r.file < |segs[r.seg]| && Current(segs, r.seg, r.file)
      ensures |out| == NumFiles()
    {
      hide Coherent, Base, Newest, Meaning;
      out := [];
      for i := 0 to |segs|
        invariant Distinct(out)
        invariant forall r :: r in out <==> r.seg < i && r.file < |segs[r.seg]| && Current(segs, r.seg, r.file)
      {
        for f := 0 to |segs[i]|
          invariant Distinct(out)
          invariant forall r :: r in out <==> (r.seg < i || (r.seg == i && r.file < f)) && r.file < |segs[r.seg]| && Current(segs, r.seg, r.file)
        {
          LiveIsCurrent(i, f);
          if Live(i, f) {
            out := out + [Ref(i, f)];
          }
        }
      }
      CurrentCount(segs, out);
      assert nLive == |Meaning(segs)| by { CoherentCount(); }
    }

    lemma {:induction false} CoherentCount()
      requires Valid()
      ensures nLive == |Meaning(segs)|
    {
    }

    /** HasPrefix: whether some live path starts with prefix, visiting only the shards that can hold one. */
    method HasPrefix(prefix: Path) returns (found: bool)
      requires Valid()
      ensures found <==> exists p :: p in Meaning(segs) && prefix <= p
    {
      var rest := over.Keys;
      while rest != {}
        invariant rest <= over.Keys
        invariant forall p :: p in over && p !in rest && !over[p].deleted ==> !(prefix <= p)
        decreases rest
      {
        var p :| p in rest;
        rest := rest - {p};
        if !over[p].deleted && prefix <= p {
          MeaningIsNewest(segs, p);
          return true;
        }
      }
      found := BaseHasPrefix(prefix);
      PrefixViews(prefix, found);
    }

    /** The base part of HasPrefix. */
    method BaseHasPrefix(prefix: Path) returns (found: bool)
      requires Valid()
      ensures found <==> exists i, f :: 0 <= i < nShards && 0 <= f < |segs[i]| && Hit(i, f, prefix)
    {
      hide Coherent, Hit;
      var s := ShardFor(prefix);
      var k: nat := if s < 0 then 0 else s;
      ShardsBefore(prefix);
      hide Base;
      while k < nShards
        invariant k <= nShards
        invariant forall i, f :: 0 <= i < k && 0 <= f < |segs[i]| ==> !Hit(i, f, prefix)
      {
        if k > 0 && Less(prefix, los[k]) && !(prefix <= los[k]) {
          ShardsAfter(k, prefix);
          return false;
        }
        var hit := ScanShard(k, prefix);
        if hit {
          return true;
        }
        k := k + 1;
      }
      found := false;
    }

    /** A live path with the prefix is a live overlay route or a hit in a shard. */
    lemma {:induction false} PrefixViews(prefix: Path, inBase: bool)
      requires Valid()
      requires inBase <==> exists i, f :: 0 <= i < nShards && 0 <= f < |segs[i]| && Hit(i, f, prefix)
      requires forall p :: p in over && !over[p].deleted ==> !(prefix <= p)
      ensures inBase <==> exists p :: p in Meaning(segs) && prefix <= p
    {
      if inBase {
        var i, f :| 0 <= i < nShards && 0 <= f < |segs[i]| && Hit(i, f, prefix);
        MeaningIsNewest(segs, segs[i][f].path);
        assert segs[i][f].path in Meaning(segs);
      }
      forall p | p in Meaning(segs) && prefix <= p ensures inBase {
        MeaningIsNewest(segs, p);
        var r := Newest(segs, p).value;
        assert r.seg < nShards ==> Hit(r.seg, r.file, prefix);
        assert r.seg >= nShards ==> p in over;
      }
    }

    /** Record f of segment i is live and its path starts with prefix. */
    ghost predicate Hit(i: nat, f: nat, prefix: Path)
      requires i < |segs| && f < |segs[i]|
    {
      Current(segs, i, f) && prefix <= segs[i][f].path
    }

    method ScanShard(k: nat, prefix: Path) returns (found: bool)
      requires Valid() && k < nShards
      ensures found <==> exists f :: 0 <= f < |segs[k]| && Hit(k, f, prefix)
    {
      var seg := segs[k];
      var f, _ := FindFile(seg, prefix);
      forall g | 0 <= g < f ensures !Hit(k, g, prefix) {
        if prefix <= seg[g].path { PrefixIsFirst(prefix, seg[g].path); Trichotomy(seg[g].path, prefix); }
      }
      while f < |seg|
        invariant LowerBound(seg, prefix) <= f <= |seg|
        invariant forall g :: 0 <= g < f ==> !Hit(k, g, prefix)
      {
        if !(prefix <= seg[f].path) {
          forall g | f <= g < |seg| ensures !Hit(k, g, prefix) {
            if prefix <= seg[g].path { PrefixesAreConvex(prefix, seg[f].path, seg[g].path); }
          }
          return false;
        }
        LiveIsCurrent(k, f);
        if Live(k, f) {
          assert Hit(k, f, prefix);
          return true;
        }
        f := f + 1;
      }
      found := false;
    }

    /** The shards before the one whose range holds prefix end before prefix. */
    lemma {:induction false} ShardsBefore(prefix: Path)
      requires Shape()
      ensures forall i, f :: 0 <= i < nShards && i < ShardIndex(los, prefix) && 0 <= f < |segs[i]| ==> !Hit(i, f, prefix)
    {
      forall i, f | 0 <= i < nShards && i < ShardIndex(los, prefix) && 0 <= f < |segs[i]| ensures !Hit(i, f, prefix) {
        var p := segs[i][f].path;
        var k := ShardIndex(los, prefix);
        ShardIndexInRange(los, prefix);
        assert segs[..nShards][i] == segs[i];
        assert InRange(los, i, p);
        LessAtMost(p, los[i + 1], los[k]);
        LessAtMost(p, los[k], prefix);
        Trichotomy(p, prefix);
        if prefix <= p { PrefixIsFirst(prefix, p); }
      }
    }

    /** Past a bound that is beyond prefix without starting with it, no path starts with prefix. */
    lemma {:induction false} ShardsAfter(k: nat, prefix: Path)
      requires Shape() && k < nShards && Less(prefix, los[k]) && !(prefix <= los[k])
      ensures forall i, f :: k <= i < nShards && 0 <= f < |segs[i]| ==> !Hit(i, f, prefix)
    {
      forall i, f | k <= i < nShards && 0 <= f < |segs[i]| ensures !Hit(i, f, prefix) {
        var p := segs[i][f].path;
        assert segs[..nShards][i] == segs[i];
        assert InRange(los, i, p);
        if k < i { LessAtMost(los[k], los[i], p); }
        if prefix <= p { PrefixesAreConvex(prefix, los[k], p); }
      }
    }
  }

  /** A snapshot grown one overlay at a time and one built at once from the same segments have the same routes, dead sets and live count. */
  lemma {:induction false} IncrementalEqualsRebuilt(grown: Snapshot, built: Snapshot)
    requires grown.Valid() && built.Valid() && grown.segs == built.segs && grown.nShards == built.nShards
    ensures grown.over == built.over && grown.DeadFiles() == built.DeadFiles() && grown.nLive == built.nLive
  {
    CoherentIsUnique(grown.segs, grown.nShards, grown.over, grown.DeadFiles(), grown.nLive, built.over, built.DeadFiles(), built.nLive);
  }
}
