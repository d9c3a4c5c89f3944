/** What every step of the lifetime protocol keeps, and what follows for every run. */
module LifetimeSafety {
  import opened Common
  import opened Order
  import opened Layers
  import opened Compaction
  import opened Lifetime

  // ---------------------------------------------------------------------------------------------
  // The invariant

  /** The store's own references to snapshot k. */
  function Roles(s: State, k: nat): nat
  {
    (if s.cur == k then 1 else 0) +
    (if (s.closing.Detached? || s.closing.Marked?) && s.closing.was == k then 1 else 0) +
    (if s.op.Busy? && s.op.phase.Swapped? && s.op.phase.prev == k then 1 else 0) +
    (if s.op.Busy? && s.op.kind.Fold? && s.op.kind.sn == k then 1 else 0)
  }

  ghost predicate IdsOk(s: State)
  {
    && s.cur < |s.snaps|
    && (forall k, i :: 0 <= k < |s.snaps| && 0 <= i < |s.snaps[k].segs| ==> s.snaps[k].segs[i] < |s.segs|)
    && (forall k, i :: 0 <= k < |s.snaps| && 0 <= i < |s.snaps[k].rest| ==> s.snaps[k].rest[i] < |s.segs|)
    && (forall k :: 0 <= k < |s.snaps| ==> s.snaps[k].nShards <= |s.snaps[k].segs|)
    && (forall id :: id in s.zeros ==> id < |s.segs|)
    && (!s.closing.Open? ==> s.closing.was < |s.snaps|)
    && (!s.closing.Open? && PreSwap(s.op) ==> s.snaps[s.cur].segs == [])
    && (s.op.Busy? && s.op.phase.Swapped? ==> s.op.phase.prev < |s.snaps|)
    && (s.op.Busy? && s.op.kind.Fold? ==> s.op.kind.sn < |s.snaps|)
  }

  /** A segment's count is the number of unfinished snapshots containing it. */
  ghost predicate CountsOk(s: State)
  {
    forall id: nat :: id < |s.segs| ==> s.segs[id].refs == Count(s.snaps, id)
  }

  /** A snapshot's count is what its readers and the store hold; while it is held it has released nothing. */
  ghost predicate SnapsOk(s: State)
  {
    forall k: nat :: k < |s.snaps| ==>
      && s.snaps[k].refs == s.snaps[k].readers + Roles(s, k)
      && (s.snaps[k].refs > 0 ==> s.snaps[k].rest == s.snaps[k].segs)
  }

  /** The segments an unpublished operation has made: open, in no snapshot, named after the coming generation. */
  ghost predicate MadeOk(s: State)
  {
    && (s.op.Busy? ==> s.op.gen > 0 && |s.op.made| <= |ToWrite(s.op.kind)| && (!PreSwap(s.op) ==> s.op.made == []))
    && (s.op.Busy? && s.op.phase.Published? ==> |s.op.made| == |ToWrite(s.op.kind)|)
    && (s.op.Busy? ==> forall i: nat :: i < |s.op.made| ==>
          var id := s.op.made[i];
          && id < |s.segs| && !s.segs[id].adopted && !s.segs[id].retired && s.segs[id].refs == 0 && s.segs[id].closed == 0
          && s.segs[id].name == Name(s.op.gen, i) && s.segs[id].content == ToWrite(s.op.kind)[i])
    && (s.op.Busy? ==> forall i, j :: 0 <= i < j < |s.op.made| ==> s.op.made[i] != s.op.made[j])
  }

  /** Every segment that was ever in a snapshot is current or retired; it is closed once, after its last release. */
  ghost predicate SegOk(s: State, id: nat)
    requires id < |s.segs| && s.cur < |s.snaps| && (!s.closing.Open? ==> s.closing.was < |s.snaps|)
  {
    var r := s.segs[id];
    && (r.adopted && !r.retired ==> id in s.snaps[s.cur].segs || (s.closing.Detached? && id in s.snaps[s.closing.was].segs))
    && (r.adopted && r.refs == 0 ==> (id in s.zeros <==> r.closed == 0))
    && (id in s.zeros ==> r.adopted && r.refs == 0)
    && (r.closed > 0 ==> r.closed == 1 && r.refs == 0)
    && (r.refs > 0 || r.retired ==> r.adopted)
    && (r.adopted ==> r.name.gen <= Bound(s))
  }

  /** The newest generation a segment in a snapshot can have been written for. */
  function Bound(s: State): int
  {
    if PreSwap(s.op) then s.op.gen - 1 else DiskGen(s.disk)
  }

  ghost predicate SegsOk(s: State)
    requires IdsOk(s)
  {
    forall id: nat :: id < |s.segs| ==> SegOk(s, id)
  }

  /** The snapshot that stands for the published generation. */
  function Basis(s: State): nat
  {
    if s.closing.Open? then s.cur else s.closing.was
  }

  /** The published entries are exactly the segments of the basis snapshot. */
  ghost predicate Corresponds(s: State)
    requires IdsOk(s)
  {
    s.closing.Open? || PreSwap(s.op) ==>
      var b := s.snaps[Basis(s)];
      && |s.entries| == |b.segs|
      && (forall i :: 0 <= i < |s.entries| ==>
            var r := s.segs[b.segs[i]];
            && r.name == s.entries[i].name && r.adopted && (r.retired ==> r.keep)
            && (i < b.nShards <==> s.entries[i].shard)
            && s.entries[i].name in s.disk.files && s.disk.files[s.entries[i].name] == r.content)
      && b.gen == (if PreSwap(s.op) then s.op.gen - 1 else Bound(s))
      && (PreSwap(s.op) && s.op.kind.Fold? ==> s.op.kind.sn == Basis(s))
  }

  ghost predicate KindOk(s: State)
    requires IdsOk(s)
  {
    PreSwap(s.op) ==>
      match s.op.kind
      case Stack(files) => files != []
      case Rebase(shards, los) => shards != [] && Base(shards, los)
      case Fold(sn, ps) =>
        && Base(Segs(ps), Los(ps)) && ps != []
        && Slotted(ps, s.snaps[sn].nShards, |FreshSegs(ps)|)
        && Meaning(Segs(ps)) == Meaning(Contents(s.segs, s.snaps[sn].segs))
        && (forall i :: 0 <= i < |ps| && ps[i].from.Some? ==> ps[i].seg == s.segs[s.snaps[sn].segs[ps[i].from.value]].content)
        && (forall i, j :: 0 <= i < j < |ps| && ps[i].from.Some? ==> ps[i].from != ps[j].from)
  }

  /** A list of entries that load accepts: distinct names of the published generations, shards in range order first. */
  ghost predicate Listed(es: seq<Entry>, gen: nat)
  {
    && (forall i :: 0 <= i < |es| ==> es[i].name.gen <= gen)
    && (forall i, j :: 0 <= i < j < |es| ==> es[i].name != es[j].name)
    && InOrder(es)
  }

  /** The generation on disk. */
  function DiskGen(d: Disk): nat
  {
    if d.manifest.None? then 0 else d.manifest.value.gen
  }

  /** A disk this protocol leaves behind: nothing published, or a manifest that load accepts. */
  ghost predicate DiskGood(d: Disk)
  {
    d.manifest.Some? ==> Listed(d.manifest.value.entries, d.manifest.value.gen) && Loadable(d)
  }

  ghost predicate IsPublished(op: Op)
  {
    op.Busy? && op.phase.Published?
  }

  /** The entries and what the manifest says, and that their files are on disk. */
  ghost predicate DiskOk(s: State)
    requires s.cur < |s.snaps|
  {
    && DiskGood(s.disk)
    && (s.disk.manifest.None? ==> s.entries == [])
    && (s.disk.manifest.Some? && !IsPublished(s.op) ==> s.entries == s.disk.manifest.value.entries)
    && (s.snaps[s.cur].gen == 0 || s.snaps[s.cur].gen == if PreSwap(s.op) then s.op.gen - 1 else DiskGen(s.disk))
  }

  /** What holds of the disk while an operation is unfinished. */
  ghost predicate WritingOk(s: State)
  {
    PreSwap(s.op) ==>
      && s.op.gen > 0 && Listed(s.entries, s.op.gen - 1)
      && (s.op.phase.Published? ==>
            && s.disk.manifest.Some? && s.disk.manifest.value.gen == s.op.gen
            && (s.op.kind.Rebase? ==> |s.op.kind.shards| == |s.op.kind.los|)
            && (s.op.kind.Fold? ==> Slotted(s.op.kind.ps, |s.entries|, |FreshSegs(s.op.kind.ps)|))
            && s.disk.manifest.value.entries == NewEntries(s.entries, s.op.kind, s.op.gen))
      && (!s.op.phase.Published? ==> DiskGen(s.disk) == s.op.gen - 1)
      && |s.op.made| <= |ToWrite(s.op.kind)|
      && forall i: nat :: i < |s.op.made| ==>
           Name(s.op.gen, i) in s.disk.files && s.disk.files[Name(s.op.gen, i)] == ToWrite(s.op.kind)[i]
  }

  ghost predicate Published(s: State, name: Name)
  {
    s.disk.manifest.Some? && exists i :: 0 <= i < |s.disk.manifest.value.entries| && s.disk.manifest.value.entries[i].name == name
  }

  ghost predicate Pending(s: State, name: Name)
  {
    PreSwap(s.op) && exists i :: 0 <= i < |s.entries| && s.entries[i].name == name
  }

  /** A retired segment whose file may be removed is not in the published manifest, nor about to be replaced in it. */
  ghost predicate FilesSafe(s: State)
  {
    forall id: nat :: id < |s.segs| && s.segs[id].retired && !s.segs[id].keep ==>
      !Published(s, s.segs[id].name) && !Pending(s, s.segs[id].name)
  }

  ghost predicate Inv(s: State)
  {
    && IdsOk(s) && CountsOk(s) && SnapsOk(s) && MadeOk(s) && SegsOk(s)
    && Corresponds(s) && KindOk(s) && DiskOk(s) && WritingOk(s) && FilesSafe(s)
  }

  // ---------------------------------------------------------------------------------------------
  // Every step keeps the invariant

  /** An operation moves on without publishing, installing or discarding anything. */
  ghost predicate OpQuiet(a: Op, b: Op)
  {
    || a == b
    || (a.Busy? && a.phase.Writing? && b == a.(phase := Failing))
    || (a.Busy? && a.phase.Swapped? && b == a.(phase := Finishing))
    || (a.Busy? && a.phase.Finishing? && b == Idle)
    || (a.Busy? && a.phase.Failing? && a.made == [] && b == Idle)
  }

  /** The same files and the same manifest up to its metadata. */
  ghost predicate SameListing(d: Disk, e: Disk)
  {
    && d.files == e.files && (d.manifest.Some? <==> e.manifest.Some?)
    && (d.manifest.Some? ==> d.manifest.value.entries == e.manifest.value.entries && d.manifest.value.gen == e.manifest.value.gen)
  }

  /** Nothing changes but reference counts of snapshots, and an operation or Close moving on. */
  ghost predicate Quiet(s: State, t: State)
  {
    && t.segs == s.segs && SameListing(t.disk, s.disk) && t.entries == s.entries && t.cur == s.cur && t.zeros == s.zeros
    && |t.snaps| == |s.snaps|
    && (forall k :: 0 <= k < |s.snaps| ==>
          && t.snaps[k].segs == s.snaps[k].segs && t.snaps[k].rest == s.snaps[k].rest
          && t.snaps[k].nShards == s.snaps[k].nShards && t.snaps[k].gen == s.snaps[k].gen)
    && (t.closing == s.closing || (s.closing.Marked? && t.closing == Closed(s.closing.was)))
    && OpQuiet(s.op, t.op)
  }

  lemma {:induction false} CountByRest(a: seq<Snap>, b: seq<Snap>, id: nat)
    requires |a| == |b| && forall k :: 0 <= k < |a| ==> a[k].rest == b[k].rest
    ensures Count(a, id) == Count(b, id)
  {
    if a != [] { CountByRest(a[..|a| - 1], b[..|b| - 1], id); }
  }

  lemma {:induction false} QuietCounts(s: State, t: State)
    requires Quiet(s, t) && CountsOk(s)
    ensures CountsOk(t)
  {
    forall id: nat { CountByRest(s.snaps, t.snaps, id); }
  }

  lemma {:induction false} QuietIds(s: State, t: State)
    requires Quiet(s, t) && IdsOk(s)
    ensures IdsOk(t)
  {
  }

  lemma {:induction false} QuietMade(s: State, t: State)
    requires Quiet(s, t) && MadeOk(s)
    ensures MadeOk(t)
  {
  }

  lemma {:induction false} QuietSegs(s: State, t: State)
    requires Quiet(s, t) && IdsOk(s) && IdsOk(t) && SegsOk(s) && WritingOk(s)
    ensures SegsOk(t)
  {
    forall id: nat | id < |t.segs| ensures SegOk(t, id) {
      assert SegOk(s, id);
    }
  }

  lemma {:induction false} QuietCorresponds(s: State, t: State)
    requires Quiet(s, t) && IdsOk(s) && IdsOk(t) && Corresponds(s) && WritingOk(s)
    ensures Corresponds(t)
  {
    if t.closing.Open? || PreSwap(t.op) {
      var b, c := s.snaps[Basis(s)], t.snaps[Basis(t)];
      assert c.segs == b.segs;
      assert |t.entries| == |c.segs|;
      assert forall i :: 0 <= i < |t.entries| ==> t.segs[c.segs[i]].name == t.entries[i].name;
      assert c.gen == (if PreSwap(t.op) then t.op.gen - 1 else Bound(t));
      assert (PreSwap(t.op) && t.op.kind.Fold? ==> t.op.kind.sn == Basis(t));
    }
  }

  lemma {:induction false} QuietKind(s: State, t: State)
    requires Quiet(s, t) && IdsOk(s) && IdsOk(t) && KindOk(s)
    ensures KindOk(t)
  {
    hide Base, Meaning;
    if PreSwap(t.op) && t.op.kind.Fold? {
      assert Contents(t.segs, t.snaps[t.op.kind.sn].segs) == Contents(s.segs, s.snaps[s.op.kind.sn].segs);
    }
  }

  lemma {:induction false} QuietDisk(s: State, t: State)
    requires Quiet(s, t) && s.cur < |s.snaps| && DiskOk(s) && WritingOk(s)
    ensures DiskOk(t) && WritingOk(t)
  {
    hide Listed, InOrder;
  }

  lemma {:induction false} QuietFiles(s: State, t: State)
    requires Quiet(s, t) && FilesSafe(s)
    ensures FilesSafe(t)
  {
    hide Published, Pending;
    forall id: nat | id < |t.segs| && t.segs[id].retired && !t.segs[id].keep
      ensures !Published(t, t.segs[id].name) && !Pending(t, t.segs[id].name)
    {
      SamePublished(s, t, t.segs[id].name);
    }
  }

  lemma {:induction false} SamePublished(s: State, t: State, name: Name)
    requires SameListing(s.disk, t.disk) && s.entries == t.entries && OpQuiet(s.op, t.op)
    ensures Published(s, name) == Published(t, name)
    ensures Pending(t, name) ==> Pending(s, name)
  {
  }

  lemma {:induction false} QuietKeeps(s: State, t: State)
    requires Inv(s) && Quiet(s, t) && SnapsOk(t)
    ensures Inv(t)
  {
    hide Quiet, IdsOk, CountsOk, SnapsOk, MadeOk, SegsOk, Corresponds, KindOk, DiskOk, WritingOk, FilesSafe;
    QuietIds(s, t);
    IdsCur(s);
    QuietCounts(s, t);
    QuietMade(s, t);
    QuietSegs(s, t);
    QuietCorresponds(s, t);
    QuietKind(s, t);
    QuietDisk(s, t);
    QuietFiles(s, t);
  }

  lemma {:induction false} IdsCur(s: State)
    requires IdsOk(s)
    ensures s.cur < |s.snaps|
  {
  }

  // Steps that touch segments or files but not the listing

  /** Segments keep their name and contents, and stay adopted. */
  ghost predicate SameIdentity(a: seq<SegRef>, b: seq<SegRef>)
  {
    && |a| <= |b|
    && forall i :: 0 <= i < |a| ==>
         && b[i].name == a[i].name && b[i].content == a[i].content && (a[i].adopted ==> b[i].adopted)
         && b[i].retired == a[i].retired && b[i].keep == a[i].keep
  }

  /** The listing, what it lists and the snapshots' contents stay; counters, unlisted files and an operation's progress may change. */
  ghost predicate Steady(s: State, t: State)
  {
    && SameIdentity(s.segs, t.segs) && t.entries == s.entries && t.cur == s.cur && t.closing == s.closing
    && |t.snaps| == |s.snaps|
    && (forall k :: 0 <= k < |s.snaps| ==>
          t.snaps[k].segs == s.snaps[k].segs && t.snaps[k].nShards == s.snaps[k].nShards && t.snaps[k].gen == s.snaps[k].gen)
    && t.disk.manifest == s.disk.manifest
    && (t.op == s.op || (s.op.Busy? && PreSwap(s.op) && !IsPublished(s.op) && t.op.Busy? && t.op == s.op.(made := t.op.made)))
    && (forall name :: Published(s, name) || ((s.closing.Open? || PreSwap(s.op)) && Listing(s, name)) ==>
          (name in t.disk.files <==> name in s.disk.files) && (name in s.disk.files ==> t.disk.files[name] == s.disk.files[name]))
  }

  ghost predicate Listing(s: State, name: Name)
  {
    exists i :: 0 <= i < |s.entries| && s.entries[i].name == name
  }

  lemma {:induction false} SteadyCorresponds(s: State, t: State)
    requires Steady(s, t) && IdsOk(s) && IdsOk(t) && Corresponds(s)
    ensures Corresponds(t)
  {
    if t.closing.Open? || PreSwap(t.op) {
      forall i | 0 <= i < |t.entries| ensures t.entries[i].name in t.disk.files && t.disk.files[t.entries[i].name] == s.disk.files[t.entries[i].name] {
        assert Listing(s, t.entries[i].name);
      }
    }
  }

  lemma {:induction false} SteadyKind(s: State, t: State)
    requires Steady(s, t) && IdsOk(s) && IdsOk(t) && KindOk(s)
    ensures KindOk(t)
  {
    hide Base, Meaning, Published, Listing;
    if PreSwap(t.op) && t.op.kind.Fold? {
      assert Contents(t.segs, t.snaps[t.op.kind.sn].segs) == Contents(s.segs, s.snaps[s.op.kind.sn].segs);
    }
  }

  lemma {:induction false} SteadyDisk(s: State, t: State)
    requires Steady(s, t) && s.cur < |s.snaps| && DiskOk(s)
    ensures DiskOk(t)
  {
    hide Listed, InOrder, Listing;
    if t.disk.manifest.Some? {
      forall i | 0 <= i < |t.disk.manifest.value.entries| ensures t.disk.manifest.value.entries[i].name in t.disk.files {
        assert Published(s, t.disk.manifest.value.entries[i].name);
      }
    }
  }

  lemma {:induction false} SteadyFiles(s: State, t: State)
    requires Steady(s, t) && FilesSafe(s)
    requires forall id: nat :: |s.segs| <= id < |t.segs| ==> !t.segs[id].retired
    ensures FilesSafe(t)
  {
    forall id: nat | id < |t.segs| && t.segs[id].retired && !t.segs[id].keep
      ensures !Published(t, t.segs[id].name) && !Pending(t, t.segs[id].name)
    {
      assert s.segs[id].retired && !s.segs[id].keep;
    }
  }

  lemma {:induction false} SteadyKeeps(s: State, t: State)
    requires Inv(s) && Steady(s, t) && IdsOk(t) && CountsOk(t) && SnapsOk(t) && MadeOk(t) && SegsOk(t) && WritingOk(t)
    requires forall id: nat :: |s.segs| <= id < |t.segs| ==> !t.segs[id].retired
    ensures Inv(t)
  {
    hide Steady, IdsOk, CountsOk, SnapsOk, MadeOk, SegsOk, Corresponds, KindOk, DiskOk, WritingOk, FilesSafe;
    IdsCur(s);
    IdsCur(t);
    SteadyCorresponds(s, t);
    SteadyKind(s, t);
    SteadyDisk(s, t);
    SteadyFiles(s, t);
  }

  lemma {:induction false} TakeKeeps(s: State, step: Step)
    requires Inv(s) && Enabled(s, step) && step.Take?
    ensures Inv(Next(s, step))
  {
    TakeQuiet(s, step);
    hide Quiet, SnapsOk, IdsOk, CountsOk, SegsOk, MadeOk, Corresponds, KindOk, DiskOk, WritingOk, FilesSafe, Next, Enabled;
    QuietKeeps(s, Next(s, step));
  }

  lemma {:induction false} TakeQuiet(s: State, step: Step)
    requires Enabled(s, step) && IdsOk(s) && SnapsOk(s) && step.Take?
    ensures Quiet(s, Next(s, step)) && SnapsOk(Next(s, step))
  {
    hide Startable;
  }

  lemma {:induction false} DropKeeps(s: State, step: Step)
    requires Inv(s) && Enabled(s, step) && step.Drop?
    ensures Inv(Next(s, step))
  {
    DropQuiet(s, step);
    hide Quiet, SnapsOk, IdsOk, CountsOk, SegsOk, MadeOk, Corresponds, KindOk, DiskOk, WritingOk, FilesSafe, Next, Enabled;
    QuietKeeps(s, Next(s, step));
  }

  lemma {:induction false} DropQuiet(s: State, step: Step)
    requires Enabled(s, step) && IdsOk(s) && SnapsOk(s) && step.Drop?
    ensures Quiet(s, Next(s, step)) && SnapsOk(Next(s, step))
  {
    hide Startable, SameListing, Roles, IdsOk;
    SameDisk(s.disk);
    var t := Next(s, step);
    forall k: nat | k < |t.snaps|
      ensures t.snaps[k].refs == t.snaps[k].readers + Roles(t, k) && (t.snaps[k].refs > 0 ==> t.snaps[k].rest == t.snaps[k].segs)
    {
      SameRoles(s, t, k);
      assert s.snaps[k].refs == s.snaps[k].readers + Roles(s, k);
    }
  }

  lemma {:induction false} SameRoles(s: State, t: State, k: nat)
    requires t.cur == s.cur && t.closing == s.closing && t.op == s.op
    ensures Roles(t, k) == Roles(s, k)
  {
  }

  lemma {:induction false} ReleaseCounts(s: State, t: State, k: nat)
    requires IdsOk(s) && CountsOk(s) && Enabled(s, ReleaseSeg(k)) && t == Next(s, ReleaseSeg(k))
    ensures CountsOk(t) && s.segs[s.snaps[k].rest[0]].refs > 0
  {
    var rest := s.snaps[k].rest;
    assert rest == [rest[0]] + rest[1..];
    forall id: nat | id < |t.segs| ensures t.segs[id].refs == Count(t.snaps, id) {
      CountUpdate(s.snaps, k, t.snaps[k], id);
    }
    CountIn(s.snaps, k, rest[0]);
  }

  lemma {:induction false} ReleaseSegs(s: State, t: State, k: nat)
    requires IdsOk(s) && IdsOk(t) && SegsOk(s) && Enabled(s, ReleaseSeg(k)) && t == Next(s, ReleaseSeg(k))
    requires s.segs[s.snaps[k].rest[0]].refs > 0
    ensures SegsOk(t)
  {
    forall id: nat | id < |t.segs| ensures SegOk(t, id) {
      assert SegOk(s, id);
    }
  }

  lemma {:induction false} ReleaseSteady(s: State, t: State, k: nat)
    requires IdsOk(s) && Enabled(s, ReleaseSeg(k)) && t == Next(s, ReleaseSeg(k))
    ensures Steady(s, t) && IdsOk(t)
  {
    hide Published, Listing, PreSwap;
  }

  lemma {:induction false} ReleaseSnaps(s: State, t: State, k: nat)
    requires SnapsOk(s) && Enabled(s, ReleaseSeg(k)) && t == Next(s, ReleaseSeg(k))
    ensures SnapsOk(t)
  {
    assert t.snaps == s.snaps[k := s.snaps[k].(rest := s.snaps[k].rest[1..])] && s.snaps[k].refs == 0;
    assert forall j: nat :: Roles(t, j) == Roles(s, j);
    hide Next, Enabled, Roles;
  }

  lemma {:induction false} ReleaseMade(s: State, t: State, k: nat)
    requires MadeOk(s) && WritingOk(s) && Enabled(s, ReleaseSeg(k)) && t == Next(s, ReleaseSeg(k))
    requires s.segs[s.snaps[k].rest[0]].refs > 0
    ensures MadeOk(t) && WritingOk(t)
  {
    hide Listed;
  }

  lemma {:induction false} ReleaseNumber(s: State, t: State, k: nat)
    requires Enabled(s, ReleaseSeg(k)) && t == Next(s, ReleaseSeg(k))
    ensures |t.segs| == |s.segs|
  {
  }

  lemma {:induction false} ReleaseSegKeeps(s: State, step: Step)
    requires Inv(s) && Enabled(s, step) && step.ReleaseSeg?
    ensures Inv(Next(s, step))
  {
    var t := Next(s, step);
    hide IdsOk, CountsOk, SnapsOk, MadeOk, SegsOk, Corresponds, KindOk, DiskOk, WritingOk, FilesSafe, Next;
    ReleaseCounts(s, t, step.k);
    ReleaseSteady(s, t, step.k);
    ReleaseSegs(s, t, step.k);
    ReleaseSnaps(s, t, step.k);
    ReleaseMade(s, t, step.k);
    ReleaseNumber(s, t, step.k);
    hide *;
    SteadyKeeps(s, t);
  }

  lemma {:induction false} CloseSegs(s: State, t: State, id: nat)
    requires IdsOk(s) && IdsOk(t) && SegsOk(s) && Enabled(s, CloseSeg(id)) && t == Next(s, CloseSeg(id))
    requires s.segs[id].retired
    ensures SegsOk(t)
  {
    forall j: nat | j < |t.segs| ensures SegOk(t, j) {
      assert SegOk(s, j);
    }
  }

  /** A count only reaches zero once the segment is retired: until then the current snapshot holds it. */
  lemma {:induction false} ZeroIsRetired(s: State, id: nat)
    requires IdsOk(s) && CountsOk(s) && SnapsOk(s) && SegsOk(s) && id in s.zeros
    ensures s.segs[id].retired && s.segs[id].closed == 0
  {
    assert SegOk(s, id);
    if !s.segs[id].retired {
      var k := if id in s.snaps[s.cur].segs then s.cur else s.closing.was;
      assert s.snaps[k].refs == s.snaps[k].readers + Roles(s, k);
      CountIn(s.snaps, k, id);
    }
  }

  lemma {:induction false} CloseSteady(s: State, t: State, id: nat)
    requires IdsOk(s) && FilesSafe(s) && Corresponds(s) && Enabled(s, CloseSeg(id)) && t == Next(s, CloseSeg(id))
    requires s.segs[id].retired && s.segs[id].closed == 0
    requires !PreSwap(s.op) && s.closing.Open? ==> forall name :: Listing(s, name) ==> Published(s, name)
    ensures Steady(s, t)
  {
    forall name | Published(s, name) || ((s.closing.Open? || PreSwap(s.op)) && Listing(s, name))
      ensures (name in t.disk.files <==> name in s.disk.files) && (name in s.disk.files ==> t.disk.files[name] == s.disk.files[name])
    {
      if !s.segs[id].keep {
        assert Listing(s, name) && PreSwap(s.op) ==> Pending(s, name);
        assert name != s.segs[id].name;
      }
    }
  }

  lemma {:induction false} ListedIsPublished(s: State)
    requires s.cur < |s.snaps| && DiskOk(s) && !PreSwap(s.op)
    ensures forall name :: Listing(s, name) ==> Published(s, name)
  {
  }

  lemma {:induction false} CloseRest(s: State, t: State, id: nat)
    requires IdsOk(s) && CountsOk(s) && SnapsOk(s) && Enabled(s, CloseSeg(id)) && t == Next(s, CloseSeg(id))
    ensures IdsOk(t) && CountsOk(t) && SnapsOk(t)
  {
    assert t.snaps == s.snaps && t.cur == s.cur && t.op == s.op && t.closing == s.closing;
    assert |t.segs| == |s.segs| && forall i :: 0 <= i < |s.segs| ==> t.segs[i].refs == s.segs[i].refs;
    assert forall i :: i in t.zeros ==> i in s.zeros;
    hide Next, Enabled, Count;
    forall k: nat | k < |t.snaps| ensures Roles(t, k) == Roles(s, k) {
    }
  }

  lemma {:induction false} CloseMade(s: State, t: State, id: nat)
    requires MadeOk(s) && WritingOk(s) && IdsOk(s) && SegsOk(s) && Enabled(s, CloseSeg(id)) && t == Next(s, CloseSeg(id))
    ensures MadeOk(t) && WritingOk(t)
  {
    hide Listed, ToWrite, NewEntries, FreshSegs, Slotted;
    assert SegOk(s, id);
    assert s.op.Busy? ==> id !in s.op.made;
    hide SegsOk, IdsOk;
  }

  lemma {:induction false} CloseNumber(s: State, t: State, id: nat)
    requires Enabled(s, CloseSeg(id)) && t == Next(s, CloseSeg(id))
    ensures |t.segs| == |s.segs|
  {
  }

  lemma {:induction false} CloseSegKeeps(s: State, step: Step)
    requires Inv(s) && Enabled(s, step) && step.CloseSeg?
    ensures Inv(Next(s, step))
  {
    var t := Next(s, step);
    hide IdsOk, CountsOk, SnapsOk, MadeOk, SegsOk, Corresponds, KindOk, DiskOk, WritingOk, FilesSafe, Next;
    ZeroIsRetired(s, step.id);
    IdsCur(s);
    if !PreSwap(s.op) { ListedIsPublished(s); }
    CloseSteady(s, t, step.id);
    CloseRest(s, t, step.id);
    CloseSegs(s, t, step.id);
    CloseMade(s, t, step.id);
    CloseNumber(s, t, step.id);
    hide *;
    SteadyKeeps(s, t);
  }

  /** Starting only takes a reference when the operation is a compaction. */
  lemma {:induction false} StartView(s: State, t: State, kind: Kind)
    requires Enabled(s, Start(kind)) && t == Next(s, Start(kind))
    ensures |t.snaps| == |s.snaps| && t.segs == s.segs && t.cur == s.cur && t.zeros == s.zeros && t.closing == s.closing
    ensures t.op == Busy(kind, s.snaps[s.cur].gen + 1, [], Writing) && s.op.Idle? && s.closing.Open? && s.cur < |s.snaps|
    ensures kind.Fold? ==> kind.sn == s.cur
    ensures t.snaps == s.snaps[s.cur := s.snaps[s.cur].(refs := s.snaps[s.cur].refs + if kind.Fold? then 1 else 0)]
  {
    hide Base, Meaning, Slotted;
  }

  lemma {:induction false} StartCounts(s: State, t: State, kind: Kind)
    requires IdsOk(s) && CountsOk(s) && SnapsOk(s) && Enabled(s, Start(kind)) && t == Next(s, Start(kind))
    ensures IdsOk(t) && CountsOk(t) && SnapsOk(t)
  {
    hide Next, Enabled, Count;
    StartView(s, t, kind);
    forall k: nat | k < |t.snaps| ensures t.snaps[k].refs == t.snaps[k].readers + Roles(t, k) && (t.snaps[k].refs > 0 ==> t.snaps[k].rest == t.snaps[k].segs) {
      assert s.snaps[k].refs == s.snaps[k].readers + Roles(s, k);
    }
    hide Roles;
    forall id: nat { CountByRest(s.snaps, t.snaps, id); }
  }

  lemma {:induction false} StartSegs(s: State, t: State, kind: Kind)
    requires IdsOk(s) && IdsOk(t) && SegsOk(s) && Corresponds(s) && Enabled(s, Start(kind)) && t == Next(s, Start(kind))
    ensures SegsOk(t) && t.op.gen - 1 == DiskGen(t.disk)
  {
    forall id: nat | id < |t.segs| ensures SegOk(t, id) {
      assert SegOk(s, id);
    }
  }

  lemma {:induction false} StartCorresponds(s: State, t: State, kind: Kind)
    requires IdsOk(s) && IdsOk(t) && Corresponds(s) && Enabled(s, Start(kind)) && t == Next(s, Start(kind))
    ensures Corresponds(t)
  {
    hide Base, Meaning, Slotted, Segs, Los, FreshSegs;
  }

  lemma {:induction false} StartKind(s: State, t: State, kind: Kind)
    requires IdsOk(s) && IdsOk(t) && Enabled(s, Start(kind)) && t == Next(s, Start(kind))
    ensures KindOk(t)
  {
    hide Base, Meaning, Slotted, Segs, Los, FreshSegs;
    if kind.Fold? {
      assert Contents(t.segs, t.snaps[kind.sn].segs) == Contents(s.segs, s.snaps[kind.sn].segs);
    }
  }

  lemma {:induction false} StartDisk(s: State, t: State, kind: Kind)
    requires IdsOk(s) && Corresponds(s) && DiskOk(s) && MadeOk(s) && Enabled(s, Start(kind)) && t == Next(s, Start(kind))
    ensures t.cur < |t.snaps| && DiskOk(t) && MadeOk(t) && WritingOk(t)
  {
    hide Startable;
    assert InOrder([]);
  }

  lemma {:induction false} StartFiles(s: State, t: State, kind: Kind)
    requires IdsOk(s) && DiskOk(s) && FilesSafe(s) && Enabled(s, Start(kind)) && t == Next(s, Start(kind))
    ensures FilesSafe(t)
  {
    hide Startable, Listed, InOrder;
    forall id: nat | id < |t.segs| && t.segs[id].retired && !t.segs[id].keep
      ensures !Published(t, t.segs[id].name) && !Pending(t, t.segs[id].name)
    {
      assert !Published(s, s.segs[id].name);
    }
  }

  lemma {:induction false} StartKeeps(s: State, step: Step)
    requires Inv(s) && Enabled(s, step) && step.Start?
    ensures Inv(Next(s, step))
  {
    var t := Next(s, step);
    hide IdsOk, CountsOk, SnapsOk, MadeOk, SegsOk, Corresponds, KindOk, DiskOk, WritingOk, FilesSafe, Next;
    StartCounts(s, t, step.kind);
    StartSegs(s, t, step.kind);
    StartCorresponds(s, t, step.kind);
    StartKind(s, t, step.kind);
    StartDisk(s, t, step.kind);
    StartFiles(s, t, step.kind);
  }

  lemma {:induction false} WriteCounts(s: State, t: State)
    requires IdsOk(s) && CountsOk(s) && SnapsOk(s) && Enabled(s, WriteSeg) && t == Next(s, WriteSeg)
    ensures IdsOk(t) && CountsOk(t) && SnapsOk(t)
  {
    NothingRefersTo(s.snaps, |s.segs|);
    assert t.snaps == s.snaps && t.cur == s.cur && t.closing == s.closing;
    assert |t.segs| == |s.segs| + 1 && t.segs[|s.segs|].refs == 0 && forall i :: 0 <= i < |s.segs| ==> t.segs[i] == s.segs[i];
    assert forall k: nat :: Roles(t, k) == Roles(s, k);
    hide Next, Enabled, Count, Roles;
    assert t.op.Busy? && s.op.Busy? && t.op.phase == s.op.phase && t.op.kind == s.op.kind && t.zeros == s.zeros;
  }

  lemma {:induction false} NothingRefersTo(snaps: seq<Snap>, id: nat)
    requires forall k, i :: 0 <= k < |snaps| && 0 <= i < |snaps[k].rest| ==> snaps[k].rest[i] < id
    ensures Count(snaps, id) == 0
  {
    if snaps != [] {
      NothingRefersTo(snaps[..|snaps| - 1], id);
      assert id !in snaps[|snaps| - 1].rest;
    }
  }

  lemma {:induction false} WriteMade(s: State, t: State)
    requires IdsOk(s) && MadeOk(s) && WritingOk(s) && Enabled(s, WriteSeg) && t == Next(s, WriteSeg)
    ensures MadeOk(t) && WritingOk(t)
  {
    hide Listed, ToWrite;
  }

  lemma {:induction false} WriteSegs(s: State, t: State)
    requires IdsOk(s) && IdsOk(t) && SegsOk(s) && Enabled(s, WriteSeg) && t == Next(s, WriteSeg)
    ensures SegsOk(t)
  {
    forall id: nat | id < |t.segs| ensures SegOk(t, id) {
      if id < |s.segs| { assert SegOk(s, id); }
    }
  }

  /** A name of the coming generation is neither published nor listed. */
  lemma {:induction false} NewName(s: State, i: nat)
    requires s.cur < |s.snaps| && DiskOk(s) && WritingOk(s) && PreSwap(s.op) && !IsPublished(s.op)
    ensures !Published(s, Name(s.op.gen, i)) && !Listing(s, Name(s.op.gen, i))
  {
    hide InOrder;
  }

  lemma {:induction false} WriteSteady(s: State, t: State)
    requires IdsOk(s) && DiskOk(s) && WritingOk(s) && Enabled(s, WriteSeg) && t == Next(s, WriteSeg)
    ensures Steady(s, t) && forall id: nat :: |s.segs| <= id < |t.segs| ==> !t.segs[id].retired
  {
    NewName(s, |s.op.made|);
    hide Published, Listing, Listed, ToWrite;
  }

  lemma {:induction false} WriteSegKeeps(s: State, step: Step)
    requires Inv(s) && Enabled(s, step) && step.WriteSeg?
    ensures Inv(Next(s, step))
  {
    var t := Next(s, step);
    hide IdsOk, CountsOk, SnapsOk, MadeOk, SegsOk, Corresponds, KindOk, DiskOk, WritingOk, FilesSafe, Next;
    IdsCur(s);
    WriteCounts(s, t);
    WriteMade(s, t);
    WriteSegs(s, t);
    WriteSteady(s, t);
    hide *;
    SteadyKeeps(s, t);
  }

  lemma {:induction false} FailKeeps(s: State, step: Step)
    requires Inv(s) && Enabled(s, step) && step.Fail?
    ensures Inv(Next(s, step))
  {
    hide CountsOk, SegsOk, MadeOk, Corresponds, KindOk, DiskOk, WritingOk, FilesSafe, Startable;
    var t := Next(s, step);
    assert Quiet(s, t) && SnapsOk(t);
    hide Quiet, SnapsOk, Inv;
    QuietKeeps(s, t);
  }

  lemma {:induction false} DiscardRest(s: State, t: State)
    requires IdsOk(s) && CountsOk(s) && SnapsOk(s) && Enabled(s, Discard) && t == Next(s, Discard)
    ensures IdsOk(t) && CountsOk(t) && SnapsOk(t)
  {
    assert t.snaps == s.snaps && t.cur == s.cur && t.closing == s.closing && t.zeros == s.zeros;
    assert |t.segs| == |s.segs| && forall i :: 0 <= i < |s.segs| ==> t.segs[i].refs == s.segs[i].refs;
    assert forall k: nat :: Roles(t, k) == Roles(s, k);
    assert t.op.Busy? && s.op.Busy? && t.op.phase == s.op.phase && t.op.kind == s.op.kind;
    hide Next, Enabled, Count, Roles;
  }

  lemma {:induction false} DiscardMade(s: State, t: State)
    requires IdsOk(s) && MadeOk(s) && WritingOk(s) && Enabled(s, Discard) && t == Next(s, Discard)
    ensures MadeOk(t) && WritingOk(t)
  {
    hide Listed, ToWrite;
  }

  lemma {:induction false} DiscardSegs(s: State, t: State)
    requires IdsOk(s) && IdsOk(t) && SegsOk(s) && MadeOk(s) && Enabled(s, Discard) && t == Next(s, Discard)
    ensures SegsOk(t)
  {
    hide ToWrite;
    forall id: nat | id < |t.segs| ensures SegOk(t, id) {
      assert SegOk(s, id);
    }
  }

  lemma {:induction false} DiscardSteady(s: State, t: State)
    requires IdsOk(s) && DiskOk(s) && WritingOk(s) && MadeOk(s) && Enabled(s, Discard) && t == Next(s, Discard)
    ensures Steady(s, t) && |t.segs| == |s.segs|
  {
    hide Published, Listing, Listed, ToWrite, InOrder, Loadable, NewEntries;
    NewName(s, |s.op.made| - 1);
  }

  lemma {:induction false} DiscardKeeps(s: State, step: Step)
    requires Inv(s) && Enabled(s, step) && step.Discard?
    ensures Inv(Next(s, step))
  {
    var t := Next(s, step);
    hide IdsOk, CountsOk, SnapsOk, MadeOk, SegsOk, Corresponds, KindOk, DiskOk, WritingOk, FilesSafe, Next;
    IdsCur(s);
    DiscardRest(s, t);
    DiscardMade(s, t);
    DiscardSegs(s, t);
    DiscardSteady(s, t);
    hide *;
    SteadyKeeps(s, t);
  }

  // Publication

  lemma {:induction false} InOrderSnoc(es: seq<Entry>, e: Entry)
    requires InOrder(es)
    requires e.shard ==> if es == [] then e.lo == "" else es[|es| - 1].shard && Less(es[|es| - 1].lo, e.lo)
    ensures InOrder(es + [e])
  {
    assert (es + [e])[..|es|] == es;
  }

  lemma {:induction false} InOrderShards(es: seq<Entry>)
    requires forall i :: 0 <= i < |es| ==> es[i].shard
    requires es != [] ==> es[0].lo == ""
    requires forall i, j :: 0 <= i < j < |es| ==> Less(es[i].lo, es[j].lo)
    ensures InOrder(es)
  {
    if es != [] { InOrderShards(es[..|es| - 1]); }
  }

  lemma {:induction false} FreshBeforeGrows(ps: seq<Piece>, i: nat, j: nat)
    requires i < j <= |ps| && ps[i].from.None?
    ensures FreshBefore(ps, i) < FreshBefore(ps, j)
  {
    if i < j - 1 { FreshBeforeGrows(ps, i, j - 1); }
  }

  /** The names an operation publishes are distinct, and each is a listed one or a new one. */
  lemma {:induction false} FoldNames(entries: seq<Entry>, kind: Kind, gen: nat)
    requires gen > 0 && Listed(entries, gen - 1) && kind.Fold? && Slotted(kind.ps, |entries|, |FreshSegs(kind.ps)|)
    requires forall i, j :: 0 <= i < j < |kind.ps| && kind.ps[i].from.Some? ==> kind.ps[i].from != kind.ps[j].from
    ensures var es := NewEntries(entries, kind, gen);
            && (forall i :: 0 <= i < |es| ==> es[i].name.gen <= gen)
            && (forall i, j :: 0 <= i < j < |es| ==> es[i].name != es[j].name)
  {
    hide InOrder, FreshSegs;
    var ps := kind.ps;
    var es := NewEntries(entries, kind, gen);
    forall i, j | 0 <= i < j < |es| ensures es[i].name != es[j].name {
      if ps[i].from.None? && ps[j].from.None? { FreshBeforeGrows(ps, i, j); }
    }
  }

  lemma {:induction false} NewListed(s: State)
    requires IdsOk(s) && KindOk(s) && WritingOk(s) && Enabled(s, Publish)
    ensures Listed(NewEntries(s.entries, s.op.kind, s.op.gen), s.op.gen)
  {
    hide Meaning, Base, Listed;
    var es := NewEntries(s.entries, s.op.kind, s.op.gen);
    match s.op.kind
    case Stack(files) =>
      StackListed(s.entries, es[|s.entries|], s.op.gen);
    case Rebase(shards, los) =>
      RebaseListed(shards, los, es, s.op.gen);
    case Fold(sn, ps) =>
      FoldListed(s.entries, s.op.kind, s.op.gen);
  }

  lemma {:induction false} FoldListed(entries: seq<Entry>, kind: Kind, gen: nat)
    requires gen > 0 && Listed(entries, gen - 1) && kind.Fold? && Slotted(kind.ps, |entries|, |FreshSegs(kind.ps)|)
    requires forall i, j :: 0 <= i < j < |kind.ps| && kind.ps[i].from.Some? ==> kind.ps[i].from != kind.ps[j].from
    requires Base(Segs(kind.ps), Los(kind.ps))
    ensures Listed(NewEntries(entries, kind, gen), gen)
  {
    hide Base, Listed, FreshSegs;
    var es := NewEntries(entries, kind, gen);
    FoldNames(entries, kind, gen);
    FoldOrder(kind.ps, es);
    ListedFrom(es, gen);
  }

  lemma {:induction false} ListedFrom(es: seq<Entry>, gen: nat)
    requires forall i :: 0 <= i < |es| ==> es[i].name.gen <= gen
    requires forall i, j :: 0 <= i < j < |es| ==> es[i].name != es[j].name
    requires InOrder(es)
    ensures Listed(es, gen)
  {
  }

  lemma {:induction false} StackListed(entries: seq<Entry>, e: Entry, gen: nat)
    requires gen > 0 && Listed(entries, gen - 1) && e.name.gen == gen && !e.shard
    ensures Listed(entries + [e], gen)
  {
    InOrderSnoc(entries, e);
  }

  lemma {:induction false} RebaseListed(shards: seq<Segment>, los: seq<Path>, es: seq<Entry>, gen: nat)
    requires Base(shards, los) && |es| == |shards| && forall i :: 0 <= i < |es| ==> es[i] == Entry(Name(gen, i), true, los[i])
    ensures Listed(es, gen)
  {
    InOrderShards(es);
  }

  lemma {:induction false} FoldOrder(ps: seq<Piece>, es: seq<Entry>)
    requires Base(Segs(ps), Los(ps)) && |es| == |ps| && forall i :: 0 <= i < |ps| ==> es[i].shard && es[i].lo == ps[i].lo
    ensures InOrder(es)
  {
    assert Los(ps) != [] ==> Los(ps)[0] == "";
    forall i, j | 0 <= i < j < |es| ensures Less(es[i].lo, es[j].lo) {
      assert Less(Los(ps)[i], Los(ps)[j]);
    }
    InOrderShards(es);
  }

  /** Every published name is a listed one or one of the operation's own. */
  lemma {:induction false} NewNames(s: State, i: nat)
    requires IdsOk(s) && s.op.Busy?
    requires s.op.kind.Rebase? ==> |s.op.kind.shards| == |s.op.kind.los|
    requires s.op.kind.Fold? ==> Slotted(s.op.kind.ps, |s.entries|, |FreshSegs(s.op.kind.ps)|)
    requires i < |NewEntries(s.entries, s.op.kind, s.op.gen)|
    ensures var name := NewEntries(s.entries, s.op.kind, s.op.gen)[i].name;
            Listing(s, name) || (name.gen == s.op.gen && name.part < |ToWrite(s.op.kind)|)
  {
    var es := NewEntries(s.entries, s.op.kind, s.op.gen);
    if s.op.kind.Stack? && i < |s.entries| { assert s.entries[i].name == es[i].name; }
    if s.op.kind.Fold? && s.op.kind.ps[i].from.Some? { assert s.entries[s.op.kind.ps[i].from.value].name == es[i].name; }
  }

  lemma {:induction false} NamesOnDisk(s: State)
    requires IdsOk(s) && WritingOk(s) && Corresponds(s) && Enabled(s, Publish)
    ensures forall i :: 0 <= i < |NewEntries(s.entries, s.op.kind, s.op.gen)| ==> NewEntries(s.entries, s.op.kind, s.op.gen)[i].name in s.disk.files
  {
    var es := NewEntries(s.entries, s.op.kind, s.op.gen);
    hide Listed, FreshSegs, NewEntries;
    forall i: nat | i < |es| ensures es[i].name in s.disk.files {
      NewNames(s, i);
      if !Listing(s, es[i].name) {
        OwnFile(s, es[i].name.part);
        assert es[i].name == Name(s.op.gen, es[i].name.part);
      }
    }
  }

  lemma {:induction false} PublishDisk(s: State, t: State)
    requires IdsOk(s) && KindOk(s) && DiskOk(s) && WritingOk(s) && Corresponds(s) && MadeOk(s) && Enabled(s, Publish) && t == Next(s, Publish)
    ensures t.cur < |t.snaps| && DiskOk(t) && WritingOk(t)
  {
    hide Listed, KindOk, ToWrite, FreshSegs, InOrder, Corresponds, MadeOk, NewEntries, IdsOk;
    NewListed(s);
    NamesOnDisk(s);
    ListedInOrder(NewEntries(s.entries, s.op.kind, s.op.gen), s.op.gen);
  }

  lemma {:induction false} ListedInOrder(es: seq<Entry>, gen: nat)
    requires Listed(es, gen)
    ensures InOrder(es)
  {
  }

  lemma {:induction false} PublishFiles(s: State, t: State)
    requires IdsOk(s) && SegsOk(s) && FilesSafe(s) && WritingOk(s) && Enabled(s, Publish) && t == Next(s, Publish)
    ensures FilesSafe(t)
  {
    forall id: nat | id < |t.segs| && t.segs[id].retired && !t.segs[id].keep
      ensures !Published(t, t.segs[id].name) && !Pending(t, t.segs[id].name)
    {
      assert SegOk(s, id);
      forall i: nat | i < |t.disk.manifest.value.entries| ensures t.disk.manifest.value.entries[i].name != t.segs[id].name {
        NewNames(s, i);
      }
    }
  }

  lemma {:induction false} PublishRest(s: State, t: State)
    requires IdsOk(s) && CountsOk(s) && SnapsOk(s) && MadeOk(s) && Enabled(s, Publish) && t == Next(s, Publish)
    ensures IdsOk(t) && CountsOk(t) && SnapsOk(t) && MadeOk(t)
  {
    assert t.snaps == s.snaps && t.segs == s.segs && t.cur == s.cur && t.closing == s.closing && t.zeros == s.zeros;
    assert forall k: nat :: Roles(t, k) == Roles(s, k);
    hide Count, Roles, ToWrite;
  }

  lemma {:induction false} PublishSegs(s: State, t: State)
    requires IdsOk(s) && IdsOk(t) && SegsOk(s) && Corresponds(s) && KindOk(s) && Enabled(s, Publish) && t == Next(s, Publish)
    ensures SegsOk(t) && Corresponds(t) && KindOk(t)
  {
    hide NewEntries, ToWrite;
    forall id: nat | id < |t.segs| ensures SegOk(t, id) {
      assert SegOk(s, id);
    }
  }

  lemma {:induction false} PublishKeeps(s: State, step: Step)
    requires Inv(s) && Enabled(s, step) && step.Publish?
    ensures Inv(Next(s, step))
  {
    var t := Next(s, step);
    hide IdsOk, CountsOk, SnapsOk, MadeOk, SegsOk, Corresponds, KindOk, DiskOk, WritingOk, FilesSafe, Next;
    PublishRest(s, t);
    PublishSegs(s, t);
    PublishDisk(s, t);
    PublishFiles(s, t);
  }

  // Installing the new snapshot

  /** Everything in a held snapshot is open and counted. */
  lemma {:induction false} HeldSegs(s: State, k: nat, i: nat)
    requires IdsOk(s) && CountsOk(s) && SnapsOk(s) && SegsOk(s) && k < |s.snaps| && Roles(s, k) + s.snaps[k].readers > 0 && i < |s.snaps[k].segs|
    ensures var r := s.segs[s.snaps[k].segs[i]];
            s.snaps[k].segs[i] < |s.segs| && r.refs > 0 && r.adopted && r.closed == 0
  {
    var id := s.snaps[k].segs[i];
    assert SegOk(s, id);
    assert s.snaps[k].refs > 0;
    assert id in s.snaps[k].rest;
    CountIn(s.snaps, k, id);
  }

  /** The snapshot a swap draws on is held: the current one, or the one compaction started from. */
  ghost predicate Drawn(s: State, id: nat)
  {
    || (s.op.Busy? && id in s.op.made)
    || (id < |s.segs| && s.segs[id].refs > 0 && s.segs[id].adopted && s.segs[id].closed == 0)
  }

  lemma {:induction false} NewSegsDrawn(s: State)
    requires IdsOk(s) && CountsOk(s) && SnapsOk(s) && SegsOk(s) && MadeOk(s) && Enabled(s, Swap)
    ensures forall i :: 0 <= i < |NewSegs(s)| ==> Drawn(s, NewSegs(s)[i])
    ensures forall i :: 0 <= i < |s.op.made| ==> s.op.made[i] < |s.segs|
  {
    hide IdsOk, CountsOk, SnapsOk, SegsOk;
    forall i | 0 <= i < |NewSegs(s)| ensures Drawn(s, NewSegs(s)[i]) {
      match s.op.kind
      case Stack(_) =>
        if i < |s.snaps[s.cur].segs| { HeldSegs(s, s.cur, i); }
      case Rebase(_, _) =>
      case Fold(sn, ps) =>
        if ps[i].from.Some? { HeldSegs(s, sn, ps[i].from.value); }
    }
  }

  /** What the swap retires has been in a snapshot and is still counted. */
  lemma {:induction false} RetiredHeld(s: State, id: nat)
    requires IdsOk(s) && CountsOk(s) && SnapsOk(s) && SegsOk(s) && Enabled(s, Swap) && id in Retired(s)
    ensures id < |s.segs| && s.segs[id].adopted && s.segs[id].refs > 0
  {
    hide IdsOk, CountsOk, SnapsOk, SegsOk;
    match s.op.kind
    case Stack(_) =>
    case Rebase(_, _) =>
      var i :| 0 <= i < |s.snaps[s.cur].segs| && s.snaps[s.cur].segs[i] == id;
      HeldSegs(s, s.cur, i);
    case Fold(sn, ps) =>
      if i: nat :| i < |s.snaps[s.cur].segs| && s.snaps[s.cur].segs[i] == id {
        HeldSegs(s, s.cur, i);
      } else {
        var i: nat :| i < |s.snaps[sn].segs| && s.snaps[sn].segs[i] == id;
        HeldSegs(s, sn, i);
      }
  }

  lemma {:induction false} SwapSnaps(s: State, t: State)
    requires IdsOk(s) && SnapsOk(s) && Enabled(s, Swap) && t == Next(s, Swap)
    ensures SnapsOk(t)
  {
    assert |t.snaps| == |s.snaps| + 1 && t.snaps[|s.snaps|].refs == 1 && t.snaps[|s.snaps|].readers == 0 && t.snaps[|s.snaps|].rest == t.snaps[|s.snaps|].segs;
    assert forall k :: 0 <= k < |s.snaps| ==> t.snaps[k] == s.snaps[k];
    hide NewSegs, NewShards, Retired, NewEntries, ToWrite;
    forall k: nat | k < |t.snaps| ensures t.snaps[k].refs == t.snaps[k].readers + Roles(t, k) && (t.snaps[k].refs > 0 ==> t.snaps[k].rest == t.snaps[k].segs) {
      if k < |s.snaps| {
        assert s.snaps[k].refs == s.snaps[k].readers + Roles(s, k);
      }
    }
  }

  /** A current segment the swap does not retire is in the new snapshot. */
  lemma {:induction false} KeptOrRetired(s: State, id: nat)
    requires IdsOk(s) && Corresponds(s) && Enabled(s, Swap) && id in s.snaps[s.cur].segs
    ensures id in Retired(s) || id in NewSegs(s)
  {
    var segs := s.snaps[s.cur].segs;
    var i: nat :| i < |segs| && segs[i] == id;
    match s.op.kind
    case Stack(_) =>
    case Rebase(_, _) =>
    case Fold(sn, ps) =>
      if i < s.snaps[s.cur].nShards && ReusedSlot(ps, i) {
        var j :| 0 <= j < |ps| && ps[j].from == Some(i);
        assert NewSegs(s)[j] == id;
      }
  }

  /** One segment before and after the swap. */
  ghost predicate Swapped1(r: SegRef, q: SegRef, retire: bool, bump: nat)
  {
    q == r.(retired := r.retired || retire, refs := r.refs + bump, adopted := r.adopted || bump > 0)
  }

  /** What the swap changes, and what it leaves. */
  ghost predicate SwapView(s: State, t: State)
  {
    && Enabled(s, Swap)
    && t.closing == s.closing && t.zeros == s.zeros && t.disk == s.disk
    && t.cur == |s.snaps| && |t.snaps| == |s.snaps| + 1 && t.snaps[t.cur].segs == NewSegs(s) == t.snaps[t.cur].rest
    && (forall k :: 0 <= k < |s.snaps| ==> t.snaps[k] == s.snaps[k])
    && |t.segs| == |s.segs|
    && (forall i: nat :: i < |s.segs| ==> Swapped1(s.segs[i], t.segs[i], i in Retired(s), Times(NewSegs(s), i)))
    && !PreSwap(t.op)
  }

  lemma {:induction false} SwapViews(s: State, t: State)
    requires Enabled(s, Swap) && t == Next(s, Swap)
    ensures SwapView(s, t) && t.snaps[t.cur].nShards == NewShards(s)
  {
    hide NewSegs, NewShards, Retired, NewEntries;
  }

  lemma {:induction false} SwapCounts(s: State, t: State)
    requires CountsOk(s) && SwapView(s, t)
    ensures CountsOk(t)
  {
    hide NewSegs, Retired;
    assert t.snaps[..|s.snaps|] == s.snaps;
    forall id: nat | id < |t.segs| ensures t.segs[id].refs == Count(t.snaps, id) {
      assert Swapped1(s.segs[id], t.segs[id], id in Retired(s), Times(NewSegs(s), id));
    }
  }

  lemma {:induction false} SwapIds(s: State, t: State)
    requires SwapView(s, t) && IdsOk(s)
    requires t.op.Busy? && t.op.kind == s.op.kind && t.op.phase == Phase.Swapped(s.cur)
    requires forall i :: 0 <= i < |NewSegs(s)| ==> Drawn(s, NewSegs(s)[i])
    requires forall i :: 0 <= i < |s.op.made| ==> s.op.made[i] < |s.segs|
    requires t.snaps[t.cur].nShards <= |NewSegs(s)|
    ensures IdsOk(t)
  {
    NewSegsBelow(s);
    hide NewSegs, Retired, Enabled, Swapped1;
  }

  lemma {:induction false} NewSegsBelow(s: State)
    requires Enabled(s, Swap) && forall i :: 0 <= i < |s.op.made| ==> s.op.made[i] < |s.segs|
    requires forall i :: 0 <= i < |NewSegs(s)| ==> Drawn(s, NewSegs(s)[i])
    ensures forall i :: 0 <= i < |NewSegs(s)| ==> NewSegs(s)[i] < |s.segs|
  {
    hide NewSegs;
  }

  lemma {:induction false} SwapSegs(s: State, t: State)
    requires IdsOk(s) && IdsOk(t) && CountsOk(s) && SnapsOk(s) && SegsOk(s) && MadeOk(s) && Corresponds(s)
    requires SwapView(s, t) && Bound(t) == s.op.gen
    requires forall i :: 0 <= i < |NewSegs(s)| ==> Drawn(s, NewSegs(s)[i])
    ensures SegsOk(t)
  {
    hide SwapView;
    SameCount(s, t);
    forall id: nat | id < |t.segs| ensures SegOk(t, id) {
      SwapSeg(s, t, id);
    }
  }

  lemma {:induction false} SameCount(s: State, t: State)
    requires SwapView(s, t)
    ensures |t.segs| == |s.segs|
  {
  }

  /** What is known of one segment when the swap happens. */
  lemma {:induction false} BeforeSwap(s: State, id: nat)
    requires IdsOk(s) && CountsOk(s) && SnapsOk(s) && SegsOk(s) && MadeOk(s) && Corresponds(s)
    requires Enabled(s, Swap) && id < |s.segs|
    requires forall i :: 0 <= i < |NewSegs(s)| ==> Drawn(s, NewSegs(s)[i])
    ensures var r := s.segs[id];
            && SegOk(s, id) && r.refs >= 0 && Bound(s) == s.op.gen - 1
            && (id in Retired(s) ==> r.adopted && r.refs > 0)
            && (id in s.snaps[s.cur].segs ==> id in Retired(s) || id in NewSegs(s))
            && (id in NewSegs(s) ==> (r.refs > 0 && r.adopted && r.closed == 0) || (!r.adopted && r.refs == 0 && r.closed == 0 && r.name.gen == s.op.gen))
  {
    hide NewSegs, Retired;
    assert SegOk(s, id);
    if id in Retired(s) { RetiredHeld(s, id); }
    if id in s.snaps[s.cur].segs { KeptOrRetired(s, id); }
    assert id in NewSegs(s) ==> Drawn(s, id);
  }

  lemma {:induction false} SwapSeg(s: State, t: State, id: nat)
    requires IdsOk(s) && IdsOk(t) && CountsOk(s) && SnapsOk(s) && SegsOk(s) && MadeOk(s) && Corresponds(s)
    requires SwapView(s, t) && Bound(t) == s.op.gen && id < |s.segs| == |t.segs|
    requires forall i :: 0 <= i < |NewSegs(s)| ==> Drawn(s, NewSegs(s)[i])
    ensures SegOk(t, id)
  {
    hide CountsOk, SnapsOk, SegsOk, MadeOk, Corresponds, NewSegs, Retired, Startable, Bound;
    BeforeSwap(s, id);
    assert Swapped1(s.segs[id], t.segs[id], id in Retired(s), Times(NewSegs(s), id));
    WasStays(s, t);
    hide IdsOk;
  }

  lemma {:induction false} WasStays(s: State, t: State)
    requires IdsOk(s) && SwapView(s, t)
    ensures s.closing.Detached? ==> s.closing.was < |s.snaps| && t.snaps[s.closing.was] == s.snaps[s.closing.was]
  {
  }

  /** The names of the new snapshot's segments are the published ones. */
  lemma {:induction false} SwapNames(s: State)
    requires IdsOk(s) && MadeOk(s) && Corresponds(s) && WritingOk(s) && Enabled(s, Swap) && s.closing.Open?
    ensures var es, ids := NewEntries(s.entries, s.op.kind, s.op.gen), NewSegs(s);
            && |es| == |ids| && NewShards(s) <= |ids|
            && (forall i :: 0 <= i < |es| ==> ids[i] < |s.segs| && s.segs[ids[i]].name == es[i].name && (i < NewShards(s) <==> es[i].shard))
            && (forall i :: 0 <= i < |es| ==> es[i].name in s.disk.files && s.disk.files[es[i].name] == s.segs[ids[i]].content)
  {
    hide ToWrite, Listed;
    var es, ids := NewEntries(s.entries, s.op.kind, s.op.gen), NewSegs(s);
    MadeCount(s);
    match s.op.kind
    case Stack(_) =>
    case Rebase(_, _) =>
    case Fold(sn, ps) =>
      forall i | 0 <= i < |es| ensures ids[i] < |s.segs| && s.segs[ids[i]].name == es[i].name && es[i].name in s.disk.files && s.disk.files[es[i].name] == s.segs[ids[i]].content {
        if ps[i].from.None? { assert FreshBefore(ps, i) < |s.op.made|; }
      }
  }

  lemma {:induction false} MadeCount(s: State)
    requires MadeOk(s) && IsPublished(s.op)
    ensures |s.op.made| == match s.op.kind case Stack(_) => 1 case Rebase(shards, _) => |shards| case Fold(_, ps) => |FreshSegs(ps)|
  {
  }

  /** Nothing the swap retires is in the new snapshot. */
  lemma {:induction false} NewNotRetired(s: State, i: nat)
    requires Enabled(s, Swap) && s.closing.Open? && i < |NewSegs(s)|
    requires IdsOk(s) && CountsOk(s) && SnapsOk(s) && SegsOk(s) && MadeOk(s) && Corresponds(s) && WritingOk(s) && KindOk(s)
    ensures NewSegs(s)[i] !in Retired(s)
  {
    hide IdsOk, CountsOk, SnapsOk, SegsOk, MadeOk, Corresponds, WritingOk, KindOk, NewSegs, Retired, NewEntries, NewShards;
    var id := NewSegs(s)[i];
    SwapNames(s);
    assert NewEntries(s.entries, s.op.kind, s.op.gen)[i].name == s.segs[id].name;
    if id in Retired(s) {
      RetiredHeld(s, id);
      RetiredUnpublished(s, id);
    }
  }

  /** What the swap retires is no longer in the manifest. */
  lemma {:induction false} AdoptedIsOlder(s: State, id: nat)
    requires IdsOk(s) && SegsOk(s) && Corresponds(s) && WritingOk(s) && KindOk(s) && Enabled(s, Swap)
    requires id in Retired(s) && id < |s.segs| && s.segs[id].adopted
    ensures s.segs[id].name.gen < s.op.gen
  {
    assert SegOk(s, id);
  }

  lemma {:induction false} RetiredUnpublished(s: State, id: nat)
    requires IdsOk(s) && SegsOk(s) && Corresponds(s) && WritingOk(s) && KindOk(s) && Enabled(s, Swap)
    requires id in Retired(s) && id < |s.segs| && s.segs[id].adopted
    ensures forall i :: 0 <= i < |NewEntries(s.entries, s.op.kind, s.op.gen)| ==> NewEntries(s.entries, s.op.kind, s.op.gen)[i].name != s.segs[id].name
  {
    var r := s.segs[id];
    assert r.name.gen < s.op.gen by { AdoptedIsOlder(s, id); }
    match s.op.kind
    case Stack(_) =>
    case Rebase(shards, _) => hide Listed, Meaning, Corresponds, WritingOk, SegsOk;
    case Fold(sn, ps) =>
      var k := RetiredSlot(s, id);
      assert Slotted(ps, |s.entries|, |FreshSegs(ps)|) && Listed(s.entries, s.op.gen - 1);
      hide IdsOk, SegsOk, Corresponds, WritingOk, KindOk, Enabled, Retired, SegOk;
      FoldedNames(s.entries, ps, s.op.kind, s.op.gen, k, r.name);
  }

  lemma {:induction false} FoldedNames(entries: seq<Entry>, ps: seq<Piece>, kind: Kind, gen: nat, k: nat, name: Name)
    requires kind.Fold? && kind.ps == ps && Slotted(ps, |entries|, |FreshSegs(ps)|) && gen > 0 && Listed(entries, gen - 1)
    requires k < |entries| && entries[k].name == name && name.gen < gen && !exists i :: 0 <= i < |ps| && ps[i].from == Some(k)
    ensures forall i :: 0 <= i < |NewEntries(entries, kind, gen)| ==> NewEntries(entries, kind, gen)[i].name != name
  {
    hide FreshSegs, InOrder;
    var es := NewEntries(entries, kind, gen);
    forall i | 0 <= i < |es| ensures es[i].name != name {
      if ps[i].from.Some? {
        var j := ps[i].from.value;
        assert es[i].name == entries[j].name && j != k;
      }
    }
  }

  /** Where in the listing a segment retired by compaction was: in a slot that is not reused. */
  lemma {:induction false} RetiredSlot(s: State, id: nat) returns (k: nat)
    requires IdsOk(s) && Corresponds(s) && WritingOk(s) && KindOk(s) && Enabled(s, Swap) && s.op.kind.Fold? && id in Retired(s)
    ensures k < |s.entries| && s.entries[k].name == s.segs[id].name
    ensures !exists i :: 0 <= i < |s.op.kind.ps| && s.op.kind.ps[i].from == Some(k)
  {
    hide Listed, Base, Meaning;
    var sn, ps := s.op.kind.sn, s.op.kind.ps;
    if i: nat :| i < |s.snaps[s.cur].segs| && s.snaps[s.cur].nShards <= i && s.snaps[s.cur].segs[i] == id {
      k := i;
      assert sn == s.cur;
    } else {
      k :| k < |s.snaps[sn].segs| && k < s.snaps[sn].nShards && !ReusedSlot(ps, k) && s.snaps[sn].segs[k] == id;
    }
  }

  lemma {:induction false} SwapCorresponds(s: State, t: State)
    requires IdsOk(s) && IdsOk(t) && CountsOk(s) && SnapsOk(s) && SegsOk(s) && MadeOk(s) && Corresponds(s) && WritingOk(s) && KindOk(s)
    requires Enabled(s, Swap) && t == Next(s, Swap) && Bound(t) == s.op.gen
    ensures Corresponds(t)
  {
    hide IdsOk, CountsOk, SnapsOk, SegsOk, MadeOk, WritingOk, KindOk, NewEntries, NewShards, Retired, NewSegs, Next, SwapView, Bound;
    SwapViews(s, t);
    NextEntries(s, t);
    if s.closing.Open? {
      hide Corresponds;
      SwapNames(s);
      assert |t.entries| == |NewSegs(s)|;
      forall i: nat | i < |t.entries|
        ensures NewSegs(s)[i] < |t.segs|
        ensures var r := t.segs[NewSegs(s)[i]]; r.name == t.entries[i].name && r.adopted && (r.retired ==> r.keep)
      {
        SwapEntry(s, t, i);
      }
      SwapListed(s, t);
    }
  }

  lemma {:induction false} SwapEntry(s: State, t: State, i: nat)
    requires SwapView(s, t) && s.closing.Open? && i < |NewSegs(s)|
    requires NewSegs(s)[i] < |s.segs| && i < |t.entries| && s.segs[NewSegs(s)[i]].name == t.entries[i].name
    requires IdsOk(s) && IdsOk(t) && CountsOk(s) && SnapsOk(s) && SegsOk(s) && MadeOk(s) && Corresponds(s) && WritingOk(s) && KindOk(s)
    ensures NewSegs(s)[i] < |t.segs|
    ensures var r := t.segs[NewSegs(s)[i]]; r.name == t.entries[i].name && r.adopted && (r.retired ==> r.keep)
  {
    hide IdsOk, CountsOk, SnapsOk, SegsOk, MadeOk, Corresponds, WritingOk, KindOk, NewEntries, NewShards, Retired, NewSegs;
    var ids := NewSegs(s);
    var id := ids[i];
    assert id in ids;
    NewNotRetired(s, i);
    assert Swapped1(s.segs[id], t.segs[id], id in Retired(s), Times(ids, id));
    DrawnKept(s, i);
  }

  lemma {:induction false} NextEntries(s: State, t: State)
    requires Enabled(s, Swap) && t == Next(s, Swap)
    ensures t.entries == NewEntries(s.entries, s.op.kind, s.op.gen) && t.cur < |t.snaps| && t.snaps[t.cur].gen == s.op.gen
    ensures t.closing == s.closing && !PreSwap(t.op)
  {
    hide NewEntries, NewShards, Retired, NewSegs;
  }

  lemma {:induction false} SwapListed(s: State, t: State)
    requires IdsOk(t) && SwapView(s, t) && s.closing.Open? && !PreSwap(t.op)
    requires t.entries == NewEntries(s.entries, s.op.kind, s.op.gen) && t.snaps[t.cur].gen == s.op.gen == Bound(t) && t.snaps[t.cur].nShards == NewShards(s)
    requires var ids := NewSegs(s);
            && |t.entries| == |ids|
            && (forall i :: 0 <= i < |t.entries| ==> ids[i] < |s.segs| && (i < NewShards(s) <==> t.entries[i].shard))
            && (forall i :: 0 <= i < |t.entries| ==> t.entries[i].name in s.disk.files && s.disk.files[t.entries[i].name] == s.segs[ids[i]].content)
            && (forall i :: 0 <= i < |t.entries| ==> var r := t.segs[ids[i]]; r.name == t.entries[i].name && r.adopted && (r.retired ==> r.keep))
    ensures Corresponds(t)
  {
    hide NewEntries, NewShards, Retired, NewSegs, Bound;
    var ids := NewSegs(s);
    forall i | 0 <= i < |t.entries| ensures t.segs[ids[i]].content == s.segs[ids[i]].content {
      assert Swapped1(s.segs[ids[i]], t.segs[ids[i]], ids[i] in Retired(s), Times(ids, ids[i]));
    }
  }

  /** A segment drawn into the new snapshot is not retired without its file being kept. */
  lemma {:induction false} DrawnKept(s: State, i: nat)
    requires IdsOk(s) && MadeOk(s) && Corresponds(s) && Enabled(s, Swap) && s.closing.Open? && i < |NewSegs(s)|
    ensures var id := NewSegs(s)[i]; id < |s.segs| && (s.segs[id].retired ==> s.segs[id].keep)
  {
    hide ToWrite;
    match s.op.kind
    case Stack(_) =>
      if i < |s.snaps[s.cur].segs| { assert s.segs[s.snaps[s.cur].segs[i]].name == s.entries[i].name; }
    case Rebase(_, _) =>
    case Fold(sn, ps) =>
      if ps[i].from.Some? { assert s.segs[s.snaps[sn].segs[ps[i].from.value]].name == s.entries[ps[i].from.value].name; }
  }

  lemma {:induction false} SwapDisk(s: State, t: State)
    requires IdsOk(s) && DiskOk(s) && WritingOk(s) && Enabled(s, Swap) && t == Next(s, Swap)
    ensures t.cur < |t.snaps| && DiskOk(t) && WritingOk(t) && MadeOk(t) && Bound(t) == s.op.gen && (IdsOk(t) ==> KindOk(t))
  {
    hide NewSegs, NewShards, Retired, NewEntries, Listed, InOrder;
  }

  lemma {:induction false} SwapFiles(s: State, t: State)
    requires IdsOk(s) && CountsOk(s) && SnapsOk(s) && SegsOk(s) && Corresponds(s) && WritingOk(s) && KindOk(s) && FilesSafe(s)
    requires SwapView(s, t) && |t.segs| == |s.segs|
    ensures FilesSafe(t)
  {
    hide IdsOk, CountsOk, SnapsOk, SegsOk, Corresponds, WritingOk, KindOk, SwapView, Published, Pending;
    forall id: nat | id < |t.segs| && t.segs[id].retired && !t.segs[id].keep
      ensures !Published(t, t.segs[id].name) && !Pending(t, t.segs[id].name)
    {
      SwapFile(s, t, id);
    }
  }

  lemma {:induction false} SwapFile(s: State, t: State, id: nat)
    requires IdsOk(s) && CountsOk(s) && SnapsOk(s) && SegsOk(s) && Corresponds(s) && WritingOk(s) && KindOk(s) && FilesSafe(s)
    requires SwapView(s, t) && id < |t.segs| == |s.segs| && t.segs[id].retired && !t.segs[id].keep
    ensures !Published(t, t.segs[id].name) && !Pending(t, t.segs[id].name)
  {
    hide IdsOk, CountsOk, SnapsOk, SegsOk, Corresponds, WritingOk, KindOk, NewEntries, NewShards, Retired, NewSegs;
    assert Swapped1(s.segs[id], t.segs[id], id in Retired(s), Times(NewSegs(s), id));
    if id in Retired(s) {
      RetiredHeld(s, id);
      RetiredUnpublished(s, id);
      NotPublished(s, t, s.segs[id].name);
    } else {
      assert s.segs[id].retired && !s.segs[id].keep;
    }
  }

  lemma {:induction false} NotPublished(s: State, t: State, name: Name)
    requires IdsOk(s) && WritingOk(s) && Enabled(s, Swap) && t.disk == s.disk
    requires forall i :: 0 <= i < |NewEntries(s.entries, s.op.kind, s.op.gen)| ==> NewEntries(s.entries, s.op.kind, s.op.gen)[i].name != name
    ensures !Published(t, name)
  {
    hide NewEntries, Listed;
  }

  lemma {:induction false} SwapShards(s: State)
    requires IdsOk(s) && MadeOk(s) && Enabled(s, Swap)
    ensures NewShards(s) <= |NewSegs(s)|
  {
    MadeCount(s);
  }

  lemma {:induction false} SwapKeeps(s: State, step: Step)
    requires Inv(s) && Enabled(s, step) && step.Swap?
    ensures Inv(Next(s, step))
  {
    var t := Next(s, step);
    hide IdsOk, CountsOk, SnapsOk, MadeOk, SegsOk, Corresponds, KindOk, DiskOk, WritingOk, FilesSafe, Next, SwapView, NewSegs, NewShards;
    NewSegsDrawn(s);
    SwapViews(s, t);
    SwapShards(s);
    SwapDisk(s, t);
    SwapIds(s, t);
    SwapCounts(s, t);
    SwapSnaps(s, t);
    SwapSegs(s, t);
    SwapCorresponds(s, t);
    SameCount(s, t);
    SwapFiles(s, t);
  }

  lemma {:induction false} ReleasePrevKeeps(s: State, step: Step)
    requires Inv(s) && Enabled(s, step) && step.ReleasePrev?
    ensures Inv(Next(s, step))
  {
    hide CountsOk, SegsOk, MadeOk, Corresponds, KindOk, DiskOk, WritingOk, FilesSafe, Startable;
    var t := Next(s, step);
    assert Quiet(s, t) && SnapsOk(t);
    hide Quiet, SnapsOk, Inv;
    QuietKeeps(s, t);
  }

  lemma {:induction false} FinishKeeps(s: State, step: Step)
    requires Inv(s) && Enabled(s, step) && step.Finish?
    ensures Inv(Next(s, step))
  {
    var t := Next(s, step);
    FinishQuiet(s, t, step);
    hide Quiet, SnapsOk, Inv;
    QuietKeeps(s, t);
  }

  lemma {:induction false} SameDisk(d: Disk)
    ensures SameListing(d, d)
  {
  }

  lemma {:induction false} FinishQuiet(s: State, t: State, step: Step)
    requires Inv(s) && Enabled(s, step) && step.Finish? && t == Next(s, step)
    ensures Quiet(s, t) && SnapsOk(t)
  {
    hide CountsOk, SegsOk, Corresponds, KindOk, DiskOk, WritingOk, FilesSafe, Startable, MadeOk, SameListing;
    assert s.op.phase.Failing? ==> s.op.made == [];
    assert SameListing(t.disk, s.disk) by { SameDisk(s.disk); }
    assert OpQuiet(s.op, t.op);
    forall k: nat | k < |t.snaps| ensures t.snaps[k].refs == t.snaps[k].readers + Roles(t, k) && (t.snaps[k].refs > 0 ==> t.snaps[k].rest == t.snaps[k].segs) {
      assert s.snaps[k].refs == s.snaps[k].readers + Roles(s, k);
    }
  }

  lemma {:induction false} StageMetaKeeps(s: State, step: Step)
    requires Inv(s) && Enabled(s, step) && step.StageMeta?
    ensures Inv(Next(s, step))
  {
    hide CountsOk, SegsOk, MadeOk, Corresponds, KindOk, DiskOk, WritingOk, FilesSafe, Startable;
    var t := Next(s, step);
    assert Quiet(s, t) && SnapsOk(t);
    hide Quiet, SnapsOk, Inv;
    QuietKeeps(s, t);
  }

  lemma {:induction false} SaveMetaKeeps(s: State, step: Step)
    requires Inv(s) && Enabled(s, step) && step.SaveMeta?
    ensures Inv(Next(s, step))
  {
    var t := Next(s, step);
    assert Quiet(s, t) && SnapsOk(t);
    hide Quiet, SnapsOk, Inv;
    QuietKeeps(s, t);
  }

  // Close

  lemma {:induction false} DetachRest(s: State, t: State)
    requires IdsOk(s) && CountsOk(s) && SnapsOk(s) && MadeOk(s) && WritingOk(s) && DiskOk(s) && FilesSafe(s) && Enabled(s, Detach) && t == Next(s, Detach)
    ensures IdsOk(t) && CountsOk(t) && SnapsOk(t)
  {
    hide MadeOk, WritingOk, DiskOk, FilesSafe;
    assert t.snaps == s.snaps + [Snap(0, [], 0, 1, 0, [])] && t.segs == s.segs && t.cur == |s.snaps| && t.closing == Detached(s.cur) && s.closing.Open?;
    assert t.op == s.op && t.zeros == s.zeros;
    hide Next, Enabled;
    assert t.snaps[..|s.snaps|] == s.snaps;
    assert forall id: nat :: Times([], id) == 0;
    forall k: nat | k < |t.snaps| ensures t.snaps[k].refs == t.snaps[k].readers + Roles(t, k) && (t.snaps[k].refs > 0 ==> t.snaps[k].rest == t.snaps[k].segs) {
      if k < |s.snaps| { assert s.snaps[k].refs == s.snaps[k].readers + Roles(s, k); }
    }
  }

  lemma {:induction false} DetachSegs(s: State, t: State)
    requires IdsOk(s) && IdsOk(t) && SegsOk(s) && Enabled(s, Detach) && t == Next(s, Detach)
    ensures SegsOk(t)
  {
    forall id: nat | id < |t.segs| ensures SegOk(t, id) {
      assert SegOk(s, id);
    }
  }

  lemma {:induction false} DetachListing(s: State, t: State)
    requires IdsOk(s) && IdsOk(t) && Corresponds(s) && KindOk(s) && Enabled(s, Detach) && t == Next(s, Detach)
    ensures Corresponds(t) && KindOk(t)
  {
    hide Base, Meaning, Slotted, FreshSegs;
    if PreSwap(t.op) && t.op.kind.Fold? {
      assert Contents(t.segs, t.snaps[t.op.kind.sn].segs) == Contents(s.segs, s.snaps[s.op.kind.sn].segs);
    }
  }

  lemma {:induction false} DetachDisk(s: State, t: State)
    requires IdsOk(s) && MadeOk(s) && WritingOk(s) && DiskOk(s) && FilesSafe(s) && Enabled(s, Detach) && t == Next(s, Detach)
    ensures t.cur < |t.snaps| && MadeOk(t) && WritingOk(t) && DiskOk(t) && FilesSafe(t)
  {
    hide Listed, InOrder, ToWrite, NewEntries;
  }

  lemma {:induction false} DetachKeeps(s: State, step: Step)
    requires Inv(s) && Enabled(s, step) && step.Detach?
    ensures Inv(Next(s, step))
  {
    var t := Next(s, step);
    hide IdsOk, CountsOk, SnapsOk, MadeOk, SegsOk, Corresponds, KindOk, DiskOk, WritingOk, FilesSafe, Next;
    DetachRest(s, t);
    DetachSegs(s, t);
    DetachListing(s, t);
    DetachDisk(s, t);
  }

  /** The detached snapshot's segments are still counted, so none of them belongs to an unfinished operation. */
  lemma {:induction false} MarkedHeld(s: State, id: nat)
    requires IdsOk(s) && CountsOk(s) && SnapsOk(s) && SegsOk(s) && Enabled(s, Mark) && id in s.snaps[s.closing.was].segs
    ensures id < |s.segs| && s.segs[id].adopted && s.segs[id].refs > 0
  {
    var i :| 0 <= i < |s.snaps[s.closing.was].segs| && s.snaps[s.closing.was].segs[i] == id;
    HeldSegs(s, s.closing.was, i);
  }

  ghost predicate MarkView(s: State, t: State)
    requires s.closing.Detached? && s.closing.was < |s.snaps|
  {
    && t == s.(segs := t.segs, closing := Marked(s.closing.was)) && |t.segs| == |s.segs|
    && forall id: nat :: id < |s.segs| ==>
         t.segs[id] == if id in s.snaps[s.closing.was].segs then s.segs[id].(retired := true, keep := true) else s.segs[id]
  }

  lemma {:induction false} MarkViews(s: State, t: State)
    requires Enabled(s, Mark) && t == Next(s, Mark)
    ensures MarkView(s, t)
  {
  }

  lemma {:induction false} MarkRest(s: State, t: State)
    requires IdsOk(s) && CountsOk(s) && SnapsOk(s) && DiskOk(s) && WritingOk(s) && Enabled(s, Mark) && MarkView(s, t)
    ensures IdsOk(t) && CountsOk(t) && SnapsOk(t) && DiskOk(t) && WritingOk(t)
  {
    hide DiskGood, Listed, NewEntries, ToWrite, Count;
    assert forall k: nat :: Roles(t, k) == Roles(s, k);
  }

  lemma {:induction false} MarkSegs(s: State, t: State)
    requires IdsOk(s) && IdsOk(t) && CountsOk(s) && SnapsOk(s) && SegsOk(s) && Enabled(s, Mark) && MarkView(s, t)
    ensures SegsOk(t)
  {
    hide CountsOk, SnapsOk, IdsOk;
    forall id: nat | id < |t.segs| ensures SegOk(t, id) {
      assert SegOk(s, id);
      if id in s.snaps[s.closing.was].segs { MarkedHeld(s, id); }
    }
  }

  lemma {:induction false} MarkMade(s: State, t: State)
    requires IdsOk(s) && CountsOk(s) && SnapsOk(s) && SegsOk(s) && MadeOk(s) && Enabled(s, Mark) && MarkView(s, t)
    ensures MadeOk(t)
  {
    hide CountsOk, SnapsOk, IdsOk, SegsOk, ToWrite;
    if s.op.Busy? {
      forall i: nat | i < |s.op.made| ensures s.op.made[i] !in s.snaps[s.closing.was].segs {
        if s.op.made[i] in s.snaps[s.closing.was].segs { MarkedHeld(s, s.op.made[i]); }
      }
    }
  }

  lemma {:induction false} MarkListing(s: State, t: State)
    requires IdsOk(s) && IdsOk(t) && Corresponds(s) && Enabled(s, Mark) && MarkView(s, t)
    ensures Corresponds(t)
  {
  }

  lemma {:induction false} MarkKind(s: State, t: State)
    requires IdsOk(s) && IdsOk(t) && KindOk(s) && Enabled(s, Mark) && MarkView(s, t)
    ensures KindOk(t)
  {
    hide Base, Meaning, FreshSegs;
    assert forall id: nat :: id < |s.segs| ==> t.segs[id].content == s.segs[id].content;
    if PreSwap(t.op) && t.op.kind.Fold? {
      assert Contents(t.segs, t.snaps[t.op.kind.sn].segs) == Contents(s.segs, s.snaps[s.op.kind.sn].segs);
    }
  }

  lemma {:induction false} MarkFiles(s: State, t: State)
    requires IdsOk(s) && FilesSafe(s) && Enabled(s, Mark) && MarkView(s, t)
    ensures FilesSafe(t)
  {
    forall id: nat | id < |t.segs| && t.segs[id].retired && !t.segs[id].keep
      ensures !Published(t, t.segs[id].name) && !Pending(t, t.segs[id].name)
    {
      assert s.segs[id].retired && !s.segs[id].keep;
    }
  }

  lemma {:induction false} MarkKeeps(s: State, step: Step)
    requires Inv(s) && Enabled(s, step) && step.Mark?
    ensures Inv(Next(s, step))
  {
    var t := Next(s, step);
    hide IdsOk, CountsOk, SnapsOk, MadeOk, SegsOk, Corresponds, KindOk, DiskOk, WritingOk, FilesSafe, Next;
    MarkViews(s, t);
    hide MarkView;
    MarkRest(s, t);
    MarkSegs(s, t);
    MarkMade(s, t);
    MarkListing(s, t);
    MarkKind(s, t);
    MarkFiles(s, t);
  }

  lemma {:induction false} ReleaseKeeps(s: State, step: Step)
    requires Inv(s) && Enabled(s, step) && step.Release?
    ensures Inv(Next(s, step))
  {
    hide CountsOk, SegsOk, MadeOk, Corresponds, KindOk, DiskOk, WritingOk, FilesSafe, Startable;
    var t := Next(s, step);
    assert Quiet(s, t) && SnapsOk(t);
    hide Quiet, SnapsOk, Inv;
    QuietKeeps(s, t);
  }

  // Recovery

  lemma {:induction false} InOrderSplits(es: seq<Entry>, i: nat)
    requires InOrder(es) && i < |es|
    ensures i < NumShards(es) <==> es[i].shard
    ensures NumShards(es) > 0 ==> es[NumShards(es) - 1].shard
  {
    var n := |es| - 1;
    if n > 0 { InOrderSplits(es[..n], if i < n then i else n - 1); }
    if es[n].shard { AllShards(es); }
  }

  lemma {:induction false} AllShards(es: seq<Entry>)
    requires InOrder(es) && es != [] && es[|es| - 1].shard
    ensures NumShards(es) == |es| && forall i :: 0 <= i < |es| ==> es[i].shard
  {
    var n := |es| - 1;
    if n > 0 { AllShards(es[..n]); }
  }

  lemma {:induction false} TimesOnce(n: nat, id: nat)
    requires id < n
    ensures Times(seq(n, i requires 0 <= i < n => i as nat), id) == 1
  {
    var s := seq(n, i requires 0 <= i < n => i as nat);
    assert s == s[..id] + [id] + s[id + 1..];
  }

  /** Whatever good disk is loaded, the protocol starts over in a good state. */
  lemma {:induction false} LoadIsGood(d: Disk)
    requires DiskGood(d)
    ensures Inv(Load(d))
  {
    var t := Load(d);
    if Loadable(d) {
      var m := d.manifest.value;
      var n := |m.entries|;
      forall id: nat | id < n ensures Times(t.snaps[0].rest, id) == 1 && (id < t.snaps[0].nShards <==> m.entries[id].shard) {
        TimesOnce(n, id);
        InOrderSplits(m.entries, id);
      }
      LoadedCounts(t);
      LoadedRest(d, t);
    } else {
      LoadedEmpty(d, t);
    }
  }

  lemma {:induction false} LoadedCounts(t: State)
    requires |t.snaps| == 1 && forall id: nat :: id < |t.segs| ==> t.segs[id].refs == 1 == Times(t.snaps[0].rest, id)
    ensures CountsOk(t)
  {
    assert t.snaps[..0] == [];
  }

  lemma {:induction false} LoadedRest(d: Disk, t: State)
    requires DiskGood(d) && Loadable(d) && t == Load(d) && CountsOk(t)
    requires forall id: nat :: id < |t.segs| ==> (id < t.snaps[0].nShards <==> d.manifest.value.entries[id].shard)
    ensures Inv(t)
  {
    hide CountsOk, Count, NumShards, InOrder;
    var m := d.manifest.value;
    assert IdsOk(t);
    assert SnapsOk(t) && MadeOk(t);
    assert forall id: nat :: id < |t.segs| ==> t.snaps[0].segs[id] == id && t.segs[id].name == m.entries[id].name;
    forall id: nat | id < |t.segs| ensures SegOk(t, id) { assert t.snaps[0].segs[id] == id; }
    assert forall i :: 0 <= i < |m.entries| ==> m.entries[i].name in EntryNames(m.entries);
    assert Corresponds(t) && KindOk(t);
    assert DiskOk(t) && WritingOk(t) && FilesSafe(t);
  }

  lemma {:induction false} LoadedEmpty(d: Disk, t: State)
    requires !Loadable(d) && t == Load(d)
    ensures Inv(t)
  {
    assert t.snaps[..0] == [];
  }

  lemma {:induction false} CrashKeeps(s: State, step: Step)
    requires Inv(s) && Enabled(s, step) && step.Crash?
    ensures Inv(Next(s, step))
  {
    LoadIsGood(s.disk);
  }

  lemma {:induction false} StepKeeps(s: State, step: Step)
    requires Inv(s) && Enabled(s, step)
    ensures Inv(Next(s, step))
  {
    hide Inv, Enabled, Next;
    match step
    case Take => TakeKeeps(s, step);
    case Drop(_) => DropKeeps(s, step);
    case ReleaseSeg(_) => ReleaseSegKeeps(s, step);
    case CloseSeg(_) => CloseSegKeeps(s, step);
    case Start(_) => StartKeeps(s, step);
    case WriteSeg => WriteSegKeeps(s, step);
    case Fail => FailKeeps(s, step);
    case Discard => DiscardKeeps(s, step);
    case Publish => PublishKeeps(s, step);
    case Swap => SwapKeeps(s, step);
    case ReleasePrev => ReleasePrevKeeps(s, step);
    case Finish => FinishKeeps(s, step);
    case StageMeta(_) => StageMetaKeeps(s, step);
    case SaveMeta => SaveMetaKeeps(s, step);
    case Detach => DetachKeeps(s, step);
    case Mark => MarkKeeps(s, step);
    case Release => ReleaseKeeps(s, step);
    case Crash => CrashKeeps(s, step);
  }

  // ---------------------------------------------------------------------------------------------
  // Runs

  /** A run of the protocol from a loaded index, crashes included. */
  ghost predicate Run(states: seq<State>, steps: seq<Step>, d: Disk)
  {
    && DiskGood(d) && |states| == |steps| + 1 && states[0] == Load(d)
    && forall i :: 0 <= i < |steps| ==> Enabled(states[i], steps[i]) && states[i + 1] == Next(states[i], steps[i])
  }

  lemma {:induction false} RunKeeps(states: seq<State>, steps: seq<Step>, d: Disk, i: nat)
    requires Run(states, steps, d) && i < |states|
    ensures Inv(states[i])
  {
    hide Inv, Enabled, Next, DiskGood;
    if i == 0 {
      LoadIsGood(d);
    } else {
      RunKeeps(states, steps, d, i - 1);
      StepKeeps(states[i - 1], steps[i - 1]);
    }
  }

  /** In every run: a snapshot somebody holds has every one of its segments open. */
  lemma {:induction false} HeldSegmentsAreOpen(states: seq<State>, steps: seq<Step>, d: Disk, n: nat, k: nat, i: nat)
    requires Run(states, steps, d) && n < |states|
    requires k < |states[n].snaps| && states[n].snaps[k].refs > 0 && i < |states[n].snaps[k].segs|
    ensures var id := states[n].snaps[k].segs[i];
            id < |states[n].segs| && states[n].segs[id].closed == 0
  {
    var s := states[n];
    RunKeeps(states, steps, d, n);
    hide Run;
    HeldIsOpen(s, k, i);
  }

  lemma {:induction false} HeldIsOpen(s: State, k: nat, i: nat)
    requires Inv(s) && k < |s.snaps| && s.snaps[k].refs > 0 && i < |s.snaps[k].segs|
    ensures s.snaps[k].segs[i] < |s.segs| && s.segs[s.snaps[k].segs[i]].closed == 0 && s.segs[s.snaps[k].segs[i]].refs > 0
  {
    hide MadeOk, Corresponds, KindOk, DiskOk, WritingOk, FilesSafe;
    var id := s.snaps[k].segs[i];
    assert SegOk(s, id);
    assert id in s.snaps[k].rest;
    CountIn(s.snaps, k, id);
  }

  /**
   In every run a segment is closed at most once, only when it is retired and no unfinished snapshot contains it; and
   one that every snapshot has released is closed, or its last holder is about to.
   */
  lemma {:induction false} ClosedOnceByLastHolder(states: seq<State>, steps: seq<Step>, d: Disk, n: nat, id: nat)
    requires Run(states, steps, d) && n < |states| && id < |states[n].segs|
    ensures var s := states[n];
            && s.segs[id].closed <= 1
            && s.segs[id].refs == Count(s.snaps, id)
            && (id in s.zeros ==> s.segs[id].retired && s.segs[id].closed == 0)
            && (s.segs[id].closed == 1 || id in s.zeros ==> forall k :: 0 <= k < |s.snaps| ==> id !in s.snaps[k].rest)
            && (s.segs[id].adopted && s.segs[id].refs == 0 ==> id in s.zeros || s.segs[id].closed == 1)
  {
    var s := states[n];
    RunKeeps(states, steps, d, n);
    hide MadeOk, Corresponds, KindOk, DiskOk, WritingOk, FilesSafe;
    assert SegOk(s, id);
    if id in s.zeros { ZeroIsRetired(s, id); }
    forall k | 0 <= k < |s.snaps| && id in s.snaps[k].rest ensures s.segs[id].refs > 0 {
      CountIn(s.snaps, k, id);
    }
  }

  /** In every run every file the published manifest names is on disk. */
  lemma {:induction false} PublishedFilesExist(states: seq<State>, steps: seq<Step>, d: Disk, n: nat, name: Name)
    requires Run(states, steps, d) && n < |states| && Published(states[n], name)
    ensures name in states[n].disk.files && Loadable(states[n].disk)
  {
    RunKeeps(states, steps, d, n);
    hide Run;
  }

  // ---------------------------------------------------------------------------------------------
  // What is published, and what a crash leaves

  /** What an operation makes of the live map. */
  ghost function After(kind: Kind, before: map<Path, File>): map<Path, File>
  {
    match kind
    case Stack(files) => Layers.Overlay(before, files)
    case Rebase(shards, _) => Meaning(shards)
    case Fold(_, _) => before
  }

  lemma {:induction false} LiveFrame(d: Disk, e: Disk)
    requires Loadable(d) && Loadable(e) && d.manifest.value.entries == e.manifest.value.entries
    requires forall i :: 0 <= i < |d.manifest.value.entries| ==> d.files[d.manifest.value.entries[i].name] == e.files[d.manifest.value.entries[i].name]
    ensures LiveMap(d) == LiveMap(e)
  {
    assert FilesOf(d, d.manifest.value.entries) == FilesOf(e, e.manifest.value.entries);
  }

  /** Loading keeps the published files and drops only unreferenced ones. */
  lemma {:induction false} LoadKeepsLive(d: Disk)
    requires DiskGood(d)
    ensures DiskGood(Load(d).disk) && LiveMap(Load(d).disk) == LiveMap(d)
    ensures d.manifest.Some? ==> Load(d).meta == d.manifest.value.meta && Load(d).disk.manifest == d.manifest
    ensures forall name :: name in d.files && name !in Load(d).disk.files ==>
              d.manifest.None? || forall i :: 0 <= i < |d.manifest.value.entries| ==> d.manifest.value.entries[i].name != name
  {
    hide Listed, InOrder, NumShards, Meaning;
    var e := Load(d).disk;
    if d.manifest.Some? {
      assert forall i :: 0 <= i < |d.manifest.value.entries| ==> d.manifest.value.entries[i].name in EntryNames(d.manifest.value.entries);
      LiveFrame(d, e);
    }
  }

  /** The contents of what an operation publishes. */
  ghost function NewContents(s: State): seq<Segment>
    requires IdsOk(s) && s.op.Busy? && (s.disk.manifest.Some? ==> Loadable(s.disk))
  {
    match s.op.kind
    case Stack(files) => (if s.disk.manifest.None? then [] else FilesOf(s.disk, s.disk.manifest.value.entries)) + [files]
    case Rebase(shards, _) => shards
    case Fold(_, ps) => Segs(ps)
  }

  lemma {:induction false} PublishedContents(s: State, t: State)
    requires IdsOk(s) && Corresponds(s) && KindOk(s) && DiskOk(s) && WritingOk(s) && Enabled(s, Publish) && t == Next(s, Publish)
    requires Loadable(t.disk)
    ensures FilesOf(t.disk, t.disk.manifest.value.entries) == NewContents(s)
  {
    var es := NewEntries(s.entries, s.op.kind, s.op.gen);
    PublishedListing(s, t);
    ContentLength(s);
    hide IdsOk, Listed, InOrder, Corresponds, KindOk, WritingOk, DiskOk, NewEntries, NewContents, Next, Enabled;
    forall i: nat | i < |es| ensures t.disk.files[es[i].name] == NewContents(s)[i] {
      ContentAt(s, i);
    }
  }

  lemma {:induction false} PublishedListing(s: State, t: State)
    requires Enabled(s, Publish) && t == Next(s, Publish)
    ensures t.disk.files == s.disk.files && t.disk.manifest.Some? && t.disk.manifest.value.entries == NewEntries(s.entries, s.op.kind, s.op.gen)
  {
    hide NewEntries;
  }

  lemma {:induction false} ContentLength(s: State)
    requires IdsOk(s) && DiskOk(s) && WritingOk(s) && Enabled(s, Publish)
    ensures |NewEntries(s.entries, s.op.kind, s.op.gen)| == |NewContents(s)|
  {
    hide Listed, InOrder;
  }

  lemma {:induction false} ContentAt(s: State, i: nat)
    requires IdsOk(s) && Corresponds(s) && KindOk(s) && DiskOk(s) && WritingOk(s) && Enabled(s, Publish)
    requires i < |NewEntries(s.entries, s.op.kind, s.op.gen)| == |NewContents(s)|
    ensures var e := NewEntries(s.entries, s.op.kind, s.op.gen)[i];
            e.name in s.disk.files ==> s.disk.files[e.name] == NewContents(s)[i]
  {
    hide Listed, InOrder, Meaning, Base, FreshSegs, Corresponds;
    var es := NewEntries(s.entries, s.op.kind, s.op.gen);
    match s.op.kind
    case Stack(files) =>
      if i == |s.entries| { OwnFile(s, 0); }
    case Rebase(shards, _) =>
      OwnFile(s, i);
    case Fold(sn, ps) =>
      FoldContent(s, ps, es, i);
  }

  lemma {:induction false} OwnFile(s: State, i: nat)
    requires WritingOk(s) && Enabled(s, Publish) && i < |ToWrite(s.op.kind)|
    ensures Name(s.op.gen, i) in s.disk.files && s.disk.files[Name(s.op.gen, i)] == ToWrite(s.op.kind)[i]
  {
    hide Listed, ToWrite, NewEntries;
  }

  lemma {:induction false} FoldContent(s: State, ps: seq<Piece>, es: seq<Entry>, i: nat)
    requires IdsOk(s) && Corresponds(s) && KindOk(s) && WritingOk(s) && Enabled(s, Publish)
    requires s.op.kind.Fold? && ps == s.op.kind.ps && es == NewEntries(s.entries, s.op.kind, s.op.gen) && i < |ps|
    ensures es[i].name in s.disk.files && s.disk.files[es[i].name] == ps[i].seg
  {
    hide Listed, Base, Meaning;
    match ps[i].from
    case Some(k) =>
      assert es[i].name == s.entries[k].name;
    case None =>
      FreshSegAt(ps, i);
      assert es[i].name == Name(s.op.gen, FreshBefore(ps, i));
  }

  /** The current snapshot a compaction starts from shows what is published. */
  lemma {:induction false} BasisIsLive(s: State)
    requires Inv(s) && (s.closing.Open? || PreSwap(s.op)) && !IsPublished(s.op)
    ensures LiveMap(s.disk) == Meaning(Contents(s.segs, s.snaps[Basis(s)].segs))
  {
    hide CountsOk, SnapsOk, SegsOk, FilesSafe, Listed, InOrder, MadeOk, KindOk, WritingOk;
    var ids := s.snaps[Basis(s)].segs;
    if s.disk.manifest.Some? {
      assert FilesOf(s.disk, s.entries) == Contents(s.segs, ids);
    } else {
      assert Contents(s.segs, ids) == [];
    }
  }

  /**
   Every step, a crash included, leaves the published live map and metadata as they were, except the one rename that
   publishes an operation: that makes the live map what the operation means, with the metadata staged at that moment.
   */
  lemma {:induction false} StepLive(s: State, step: Step)
    requires Inv(s) && Enabled(s, step)
    ensures Inv(Next(s, step))
    ensures LiveMap(Next(s, step).disk) == if step.Publish? then After(s.op.kind, LiveMap(s.disk)) else LiveMap(s.disk)
    ensures step.Publish? ==> Next(s, step).disk.manifest.Some? && Next(s, step).disk.manifest.value.meta == s.meta
    ensures !step.Publish? && !step.SaveMeta? ==> Next(s, step).disk.manifest == s.disk.manifest
  {
    var t := Next(s, step);
    StepKeeps(s, step);
    if step.Publish? {
      PublishLive(s, t);
    } else if step.Crash? {
      assert DiskGood(s.disk);
      LoadKeepsLive(s.disk);
    } else {
      QuietLive(s, t, step);
    }
  }

  lemma {:induction false} PublishLive(s: State, t: State)
    requires Inv(s) && Inv(t) && Enabled(s, Publish) && t == Next(s, Publish)
    ensures LiveMap(t.disk) == After(s.op.kind, LiveMap(s.disk))
  {
    PublishFacts(s, t);
    hide IdsOk, CountsOk, SnapsOk, SegsOk, FilesSafe, MadeOk, WritingOk, NewContents, Corresponds, KindOk, DiskOk, Next, Enabled, Loadable, After, Contents;
    PublishedContents(s, t);
    BasisIsLive(s);
    NewMeaning(s);
  }

  lemma {:induction false} PublishFacts(s: State, t: State)
    requires Inv(s) && Inv(t) && Enabled(s, Publish) && t == Next(s, Publish)
    ensures t.disk.manifest.Some? && Loadable(t.disk) && (s.disk.manifest.Some? ==> Loadable(s.disk))
    ensures PreSwap(s.op) && !IsPublished(s.op) && (s.op.kind.Fold? ==> s.op.kind.sn == Basis(s))
  {
    hide CountsOk, SnapsOk, SegsOk, FilesSafe, Listed, InOrder, MadeOk, WritingOk, KindOk, NewEntries;
  }

  lemma {:induction false} NewMeaning(s: State)
    requires IdsOk(s) && KindOk(s) && PreSwap(s.op) && (s.disk.manifest.Some? ==> Loadable(s.disk))
    requires s.op.kind.Fold? ==> LiveMap(s.disk) == Meaning(Contents(s.segs, s.snaps[s.op.kind.sn].segs))
    ensures Meaning(NewContents(s)) == After(s.op.kind, LiveMap(s.disk))
  {
    hide Base, Slotted, FreshSegs;
    if s.op.kind.Stack? {
      var fs := if s.disk.manifest.None? then [] else FilesOf(s.disk, s.disk.manifest.value.entries);
      assert (fs + [s.op.kind.files])[..|fs|] == fs;
    }
  }

  /** No other step touches a published file. */
  lemma {:induction false} QuietLive(s: State, t: State, step: Step)
    requires Inv(s) && Inv(t) && Enabled(s, step) && t == Next(s, step) && !step.Publish? && !step.Crash?
    ensures LiveMap(t.disk) == LiveMap(s.disk)
    ensures !step.SaveMeta? ==> t.disk.manifest == s.disk.manifest
  {
    hide Next, Enabled, Inv, Listed, InOrder, Meaning, IdsOk;
    FilesUntouched(s, t, step);
    ManifestKept(s, t, step);
    GoodDisks(s, t);
    if s.disk.manifest.Some? {
      LiveFrame(s.disk, t.disk);
    }
  }

  lemma {:induction false} GoodDisks(s: State, t: State)
    requires Inv(s) && Inv(t)
    ensures DiskGood(s.disk) && DiskGood(t.disk)
  {
  }

  lemma {:induction false} ManifestKept(s: State, t: State, step: Step)
    requires Inv(s) && Enabled(s, step) && t == Next(s, step) && !step.Publish? && !step.Crash?
    ensures !step.SaveMeta? ==> t.disk.manifest == s.disk.manifest
    ensures SameManifest(s.disk, t.disk)
  {
    hide CountsOk, SnapsOk, SegsOk, FilesSafe, Listed, InOrder, MadeOk, KindOk, WritingOk, NewEntries, NewSegs, NewShards, Retired, Startable, ToWrite;
  }

  ghost predicate SameManifest(d: Disk, e: Disk)
  {
    && (d.manifest.Some? <==> e.manifest.Some?)
    && (d.manifest.Some? ==> d.manifest.value.entries == e.manifest.value.entries)
  }

  lemma {:induction false} FilesUntouched(s: State, t: State, step: Step)
    requires Inv(s) && Enabled(s, step) && t == Next(s, step) && !step.Crash?
    ensures forall name :: Published(s, name) && name in s.disk.files ==> name in t.disk.files && t.disk.files[name] == s.disk.files[name]
  {
    IdsCur(s);
    match step
    case WriteSeg => NewName(s, |s.op.made|);
    case Discard =>
      NewName(s, |s.op.made| - 1);
      assert s.segs[s.op.made[|s.op.made| - 1]].name == Name(s.op.gen, |s.op.made| - 1);
    case CloseSeg(id) =>
      ZeroIsRetired(s, id);
      hide CountsOk, SnapsOk, SegsOk, Listed, InOrder, MadeOk, KindOk, WritingOk, Corresponds, DiskOk;
    case Swap => DiskOnly(s, t, step);
    case _ => DiskOnly(s, t, step);
  }

  lemma {:induction false} DiskOnly(s: State, t: State, step: Step)
    requires Enabled(s, step) && t == Next(s, step) && !step.Crash? && !step.WriteSeg? && !step.Discard? && !step.CloseSeg?
    ensures t.disk.files == s.disk.files
  {
    hide NewEntries, NewSegs, NewShards, Retired, Startable, ToWrite;
  }

  /** The metadata on disk. */
  function SavedMeta(d: Disk): Option<Meta>
  {
    if d.manifest.None? then None else Some(d.manifest.value.meta)
  }

  /** What a run amounts to: the live map and the metadata on disk, and the metadata staged in memory. */
  datatype Record = Record(live: map<Path, File>, saved: Option<Meta>, staged: Meta)

  /** One step's effect: publishing, saving, staging, and losing what was only staged. */
  ghost function Effect(r: Record, s: State, step: Step): Record
    requires Enabled(s, step)
  {
    match step
    case Publish => Record(After(s.op.kind, r.live), Some(r.staged), r.staged)
    case SaveMeta => if s.snaps[s.cur].gen == 0 then r else r.(saved := Some(r.staged))
    case StageMeta(m) => r.(staged := m)
    case Crash => r.(staged := if r.saved.Some? then r.saved.value else 0)
    case _ => r
  }

  /** The effects of a run's steps, in order. */
  ghost function History(states: seq<State>, steps: seq<Step>): Record
    requires |states| == |steps| + 1 && forall i :: 0 <= i < |steps| ==> Enabled(states[i], steps[i])
    requires Loadable(states[0].disk) || states[0].disk.manifest.None?
  {
    if steps == [] then Record(LiveMap(states[0].disk), SavedMeta(states[0].disk), states[0].meta)
    else
      var n := |steps| - 1;
      assert Enabled(states[n], steps[n]);
      Effect(History(states[..n + 1], steps[..n]), states[n], steps[n])
  }

  /** Every step does to the metadata what its effect says. */
  lemma {:induction false} StepMeta(s: State, step: Step)
    requires Inv(s) && Enabled(s, step)
    ensures var t := Next(s, step); var r := Effect(Record(map[], SavedMeta(s.disk), s.meta), s, step);
      SavedMeta(t.disk) == r.saved && t.meta == r.staged
  {
    hide NewEntries, NewSegs, NewShards, Retired, Startable, ToWrite, Bump, Retire, IdsOk, CountsOk, SnapsOk, SegsOk, MadeOk, Corresponds,
      KindOk, DiskOk, WritingOk, FilesSafe, After;
    if step.Crash? { CrashMeta(s); }
  }

  lemma {:induction false} CrashMeta(s: State)
    requires Inv(s)
    ensures var t := Load(s.disk);
      SavedMeta(t.disk) == SavedMeta(s.disk) && t.meta == if SavedMeta(s.disk).Some? then SavedMeta(s.disk).value else 0
  {
    assert DiskGood(s.disk);
    LoadKeepsLive(s.disk);
  }

  /**
   Crash consistency: cut a run anywhere, load what is on disk, and the live map and the metadata are exactly the result of
   the operations published and the metadata saved so far; every operation counts entirely or not at all.
   */
  lemma {:induction false} CrashConsistency(states: seq<State>, steps: seq<Step>, d: Disk)
    requires Run(states, steps, d)
    ensures Loadable(states[0].disk) || states[0].disk.manifest.None?
    ensures var z, r := states[|steps|], History(states, steps); var t := Load(z.disk);
            && (Loadable(z.disk) || z.disk.manifest.None?)
            && LiveMap(z.disk) == r.live && SavedMeta(z.disk) == r.saved && z.meta == r.staged
            && LiveMap(t.disk) == r.live && SavedMeta(t.disk) == r.saved && t.meta == (if r.saved.Some? then r.saved.value else 0)
            && Meaning(Contents(t.segs, t.snaps[0].segs)) == r.live
  {
    RunKeeps(states, steps, d, 0);
    RunKeeps(states, steps, d, |steps|);
    GoodDisks(states[0], states[|steps|]);
    HistoryIsLive(states, steps, d);
    var z := states[|steps|].disk;
    LoadKeepsLive(z);
    LoadIsGood(z);
    CrashMeta(states[|steps|]);
    hide Run, Inv;
    LoadedBasis(z);
  }

  lemma {:induction false} LoadedBasis(z: Disk)
    requires DiskGood(z)
    ensures var t := Load(z);
            && (Loadable(t.disk) || t.disk.manifest.None?)
            && (forall i :: 0 <= i < |t.snaps[0].segs| ==> t.snaps[0].segs[i] < |t.segs|)
            && LiveMap(t.disk) == Meaning(Contents(t.segs, t.snaps[0].segs))
  {
    var t := Load(z);
    LoadIsGood(z);
    LoadKeepsLive(z);
    assert t.cur == 0 && t.op.Idle? && t.closing.Open?;
    hide Load;
    BasisIsLive(t);
  }

  lemma {:induction false} HistoryIsLive(states: seq<State>, steps: seq<Step>, d: Disk)
    requires Run(states, steps, d)
    requires Loadable(states[0].disk) || states[0].disk.manifest.None?
    ensures var z, r := states[|steps|], History(states, steps);
      Inv(z) && LiveMap(z.disk) == r.live && SavedMeta(z.disk) == r.saved && z.meta == r.staged
  {
    hide Inv, Enabled, Next, LiveMap, Loadable, DiskGood, Load, SavedMeta, After;
    RunKeeps(states, steps, d, |steps|);
    if steps != [] {
      var n := |steps| - 1;
      assert states[..n + 1][0] == states[0];
      PrefixRun(states, steps, d, n);
      HistoryIsLive(states[..n + 1], steps[..n], d);
      RunStep(states, steps, d, n);
      hide Run;
      StepLive(states[n], steps[n]);
      StepMeta(states[n], steps[n]);
    }
  }

  lemma {:induction false} RunStep(states: seq<State>, steps: seq<Step>, d: Disk, n: nat)
    requires Run(states, steps, d) && n < |steps|
    ensures Enabled(states[n], steps[n]) && states[n + 1] == Next(states[n], steps[n])
  {
  }

  lemma {:induction false} PrefixRun(states: seq<State>, steps: seq<Step>, d: Disk, n: nat)
    requires Run(states, steps, d) && n <= |steps|
    ensures Run(states[..n + 1], steps[..n], d)
  {
    hide Enabled, Next, Load, DiskGood;
  }

  // ---------------------------------------------------------------------------------------------
  // What load needs: the published shards always form a base

  function LosOf(es: seq<Entry>): (r: seq<Path>)
    ensures |r| == |es| && forall i :: 0 <= i < |es| ==> r[i] == es[i].lo
  {
    seq(|es|, i requires 0 <= i < |es| => es[i].lo)
  }

  /** The shards of a listing with these contents have disjoint ranges from "" on, and hold no tombstones. */
  ghost predicate BaseListed(es: seq<Entry>, contents: seq<Segment>)
    requires |es| == |contents|
  {
    Base(contents[..NumShards(es)], LosOf(es)[..NumShards(es)])
  }

  ghost predicate Shaped(d: Disk)
  {
    Loadable(d) ==> BaseListed(d.manifest.value.entries, FilesOf(d, d.manifest.value.entries))
  }

  lemma {:induction false} PublishShaped(s: State)
    requires IdsOk(s) && KindOk(s) && DiskOk(s) && Enabled(s, Publish)
    requires s.disk.manifest.Some? ==> Loadable(s.disk) && BaseListed(s.entries, FilesOf(s.disk, s.disk.manifest.value.entries))
    ensures var es := NewEntries(s.entries, s.op.kind, s.op.gen);
            |es| == |NewContents(s)| && BaseListed(es, NewContents(s))
  {
    hide Meaning, Base, BaseListed, DiskGood;
    var es := NewEntries(s.entries, s.op.kind, s.op.gen);
    match s.op.kind
    case Stack(files) =>
      var fs := if s.disk.manifest.None? then [] else FilesOf(s.disk, s.disk.manifest.value.entries);
      if s.disk.manifest.None? { NothingListed(); }
      StackShaped(s.entries, es[|s.entries|], fs, files);
    case Rebase(shards, los) =>
      AllShaped(es, shards, los);
    case Fold(_, ps) =>
      AllShaped(es, Segs(ps), Los(ps));
  }

  lemma {:induction false} NothingListed()
    ensures BaseListed([], [])
  {
  }

  lemma {:induction false} StackShaped(entries: seq<Entry>, e: Entry, fs: seq<Segment>, files: Segment)
    requires |entries| == |fs| && BaseListed(entries, fs) && !e.shard
    ensures BaseListed(entries + [e], fs + [files])
  {
    var es, gs := entries + [e], fs + [files];
    assert es[..|es| - 1] == entries;
    var n := NumShards(entries);
    assert LosOf(es)[..n] == LosOf(entries)[..n] && gs[..n] == fs[..n];
  }

  lemma {:induction false} AllShaped(es: seq<Entry>, shards: seq<Segment>, los: seq<Path>)
    requires Base(shards, los) && |es| == |shards| && forall i :: 0 <= i < |es| ==> es[i].shard && es[i].lo == los[i]
    ensures BaseListed(es, shards)
  {
    OnlyShards(es);
    assert LosOf(es) == los && los[..|los|] == los && shards[..|shards|] == shards;
  }

  lemma {:induction false} OnlyShards(es: seq<Entry>)
    requires forall i :: 0 <= i < |es| ==> es[i].shard
    ensures NumShards(es) == |es|
  {
    if es != [] { OnlyShards(es[..|es| - 1]); }
  }

  lemma {:induction false} StepShaped(s: State, step: Step)
    requires Inv(s) && Enabled(s, step) && Shaped(s.disk)
    ensures Shaped(Next(s, step).disk)
  {
    var t := Next(s, step);
    StepKeeps(s, step);
    GoodDisks(s, t);
    if step.Crash? {
      ShapedLoad(s.disk);
    } else {
      hide Inv, Enabled, Next, Shaped;
      if step.Publish? {
        ShapedAfterPublish(s, t);
      } else {
        ShapedQuietly(s, t, step);
      }
    }
  }

  lemma {:induction false} ShapedLoad(d: Disk)
    requires DiskGood(d) && Shaped(d)
    ensures Shaped(Load(d).disk)
  {
    hide Base, Meaning, Listed, InOrder, NumShards;
    LoadKeepsLive(d);
    if d.manifest.Some? {
      assert forall i :: 0 <= i < |d.manifest.value.entries| ==> d.manifest.value.entries[i].name in EntryNames(d.manifest.value.entries);
      SameFiles(d, Load(d).disk);
    }
  }

  lemma {:induction false} SameFiles(d: Disk, e: Disk)
    requires Loadable(d) && Loadable(e) && d.manifest.value.entries == e.manifest.value.entries
    requires forall i :: 0 <= i < |d.manifest.value.entries| ==> d.files[d.manifest.value.entries[i].name] == e.files[d.manifest.value.entries[i].name]
    ensures FilesOf(d, d.manifest.value.entries) == FilesOf(e, e.manifest.value.entries)
  {
  }

  lemma {:induction false} ShapedQuietly(s: State, t: State, step: Step)
    requires Inv(s) && Inv(t) && Enabled(s, step) && t == Next(s, step) && !step.Publish? && !step.Crash? && Shaped(s.disk)
    ensures Shaped(t.disk)
  {
    hide Next, Enabled, Inv, Listed, InOrder, BaseListed;
    FilesUntouched(s, t, step);
    ManifestKept(s, t, step);
    GoodDisks(s, t);
    if s.disk.manifest.Some? {
      SameFiles(s.disk, t.disk);
    }
  }

  lemma {:induction false} ShapedAfterPublish(s: State, t: State)
    requires Inv(s) && Inv(t) && Enabled(s, Publish) && t == Next(s, Publish) && Shaped(s.disk)
    ensures Shaped(t.disk)
  {
    PublishFacts(s, t);
    NextManifest(s, t);
    hide IdsOk, CountsOk, SnapsOk, SegsOk, FilesSafe, MadeOk, WritingOk, NewContents, Corresponds, KindOk, Next, Enabled, Loadable, NewEntries, BaseListed;
    PublishedContents(s, t);
    PublishShaped(s);
  }

  lemma {:induction false} NextManifest(s: State, t: State)
    requires Inv(s) && Enabled(s, Publish) && t == Next(s, Publish)
    ensures t.disk.manifest.Some? && t.disk.manifest.value.entries == NewEntries(s.entries, s.op.kind, s.op.gen)
  {
    hide NewEntries, Inv;
  }

  /** In every run that starts from a disk whose shards form a base, they still do: load can always build its snapshot. */
  lemma {:induction false} PublishedBaseIsWellFormed(states: seq<State>, steps: seq<Step>, d: Disk, n: nat)
    requires Run(states, steps, d) && Shaped(d) && n < |states|
    ensures Shaped(states[n].disk)
  {
    hide Inv, Enabled, Next, Shaped, Load, DiskGood;
    if n == 0 {
      ShapedLoad(d);
    } else {
      PublishedBaseIsWellFormed(states, steps, d, n - 1);
      RunKeeps(states, steps, d, n - 1);
      RunStep(states, steps, d, n - 1);
      hide Run;
      StepShaped(states[n - 1], steps[n - 1]);
    }
  }
}
