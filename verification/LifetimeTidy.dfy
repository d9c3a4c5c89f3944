/** No file is left behind: what is on disk is published, or belongs to a segment that still needs it. */
module LifetimeTidy {
  import opened Common
  import opened Order
  import opened Layers
  import opened Compaction
  import opened Lifetime
  import opened LifetimeSafety
  import S = LifetimeSafety

  /** A segment that still needs its file: it is open, or was closed with its file kept. */
  predicate Needs(r: SegRef)
  {
    r.closed == 0 || (r.retired && r.keep)
  }

  ghost predicate Owned(s: State, name: Name)
  {
    exists id: nat :: id < |s.segs| && s.segs[id].name == name && Needs(s.segs[id])
  }

  predicate Closes(c: Closing)
  {
    c.Marked? || c.Closed?
  }

  /** Every open segment that no snapshot ever contained was made by the running operation. */
  ghost predicate MadeByOp(s: State, id: nat)
  {
    s.op.Busy? && id in s.op.made
  }

  /** Every file is named in the manifest or needed by a segment; only Close keeps files. */
  ghost predicate Tidy(s: State)
  {
    && (forall name :: name in s.disk.files ==> S.Published(s, name) || Owned(s, name))
    && (forall id: nat :: id < |s.segs| && !s.segs[id].adopted && s.segs[id].closed == 0 ==> MadeByOp(s, id))
    && (!Closes(s.closing) ==> forall id: nat :: id < |s.segs| ==> !s.segs[id].keep)
  }

  // ---------------------------------------------------------------------------------------------
  // Steps that close, write and publish nothing

  ghost predicate SameFate(r: SegRef, q: SegRef)
  {
    q.name == r.name && q.closed == r.closed && q.retired == r.retired && q.keep == r.keep && q.adopted == r.adopted
  }

  ghost predicate Plain(s: State, t: State)
  {
    && t.disk.files == s.disk.files && SameManifest(s.disk, t.disk) && |t.segs| == |s.segs|
    && (forall id: nat :: id < |s.segs| ==> SameFate(s.segs[id], t.segs[id]))
    && (forall id: nat :: MadeByOp(s, id) ==> MadeByOp(t, id))
    && (Closes(s.closing) ==> Closes(t.closing))
  }

  lemma {:induction false} OwnedStays(s: State, t: State, name: Name)
    requires |s.segs| <= |t.segs|
    requires forall id: nat :: id < |s.segs| && s.segs[id].name == name && Needs(s.segs[id]) ==>
      t.segs[id].name == name && Needs(t.segs[id])
    ensures Owned(s, name) ==> Owned(t, name)
  {
    if Owned(s, name) {
      var id: nat :| id < |s.segs| && s.segs[id].name == name && Needs(s.segs[id]);
      assert t.segs[id].name == name && Needs(t.segs[id]);
    }
  }

  lemma {:induction false} PublishedStays(s: State, t: State, name: Name)
    requires SameManifest(s.disk, t.disk)
    ensures S.Published(s, name) <==> S.Published(t, name)
  {
  }

  lemma {:induction false} PlainTidy(s: State, t: State)
    requires Tidy(s) && Plain(s, t)
    ensures Tidy(t)
  {
    hide S.Published, Owned, MadeByOp, SameManifest;
    forall name | name in t.disk.files ensures S.Published(t, name) || Owned(t, name) {
      PublishedStays(s, t, name);
      OwnedStays(s, t, name);
    }
    forall id: nat | id < |t.segs| && !t.segs[id].adopted && t.segs[id].closed == 0 ensures MadeByOp(t, id) {
      assert SameFate(s.segs[id], t.segs[id]);
    }
    forall id: nat | !Closes(t.closing) && id < |t.segs| ensures !t.segs[id].keep {
      assert SameFate(s.segs[id], t.segs[id]);
    }
  }

  predicate IsPlain(step: Step)
  {
    !step.CloseSeg? && !step.WriteSeg? && !step.Discard? && !step.Publish? && !step.Swap? && !step.Mark? && !step.Crash?
  }

  lemma {:induction false} PlainSteps(s: State, t: State, step: Step)
    requires Inv(s) && Tidy(s) && Enabled(s, step) && t == Next(s, step) && IsPlain(step)
    ensures Plain(s, t)
  {
    ManifestKept(s, t, step);
    DiskOnly(s, t, step);
    SegsStand(s, t, step);
    OpsStand(s, t, step);
  }

  lemma {:induction false} SegsStand(s: State, t: State, step: Step)
    requires Enabled(s, step) && t == Next(s, step) && IsPlain(step)
    ensures |t.segs| == |s.segs| && forall id: nat :: id < |s.segs| ==> SameFate(s.segs[id], t.segs[id])
    ensures Closes(s.closing) ==> Closes(t.closing)
  {
    hide Startable, NewEntries, NewSegs, NewShards, Retired, ToWrite;
  }

  lemma {:induction false} OpsStand(s: State, t: State, step: Step)
    requires Inv(s) && Enabled(s, step) && t == Next(s, step) && IsPlain(step)
    ensures forall id: nat :: MadeByOp(s, id) ==> MadeByOp(t, id)
  {
    hide Startable, NewEntries, NewSegs, NewShards, Retired, ToWrite, IdsOk, CountsOk, SnapsOk, SegsOk, Corresponds, KindOk, DiskOk;
    hide WritingOk, FilesSafe;
  }

  // ---------------------------------------------------------------------------------------------
  // Closing, writing and discarding

  lemma {:induction false} CloseTidy(s: State, id: nat)
    requires Inv(s) && Tidy(s) && Enabled(s, CloseSeg(id))
    ensures Tidy(Next(s, CloseSeg(id)))
  {
    hide Inv, S.Published, Owned, MadeByOp;
    var t := Next(s, CloseSeg(id));
    forall name | name in t.disk.files ensures S.Published(t, name) || Owned(t, name) {
      PublishedStays(s, t, name);
      OwnedStays(s, t, name);
    }
    forall x: nat | x < |t.segs| && !t.segs[x].adopted && t.segs[x].closed == 0 ensures MadeByOp(t, x) {
      assert MadeByOp(s, x);
      SameMade(s, t, x);
    }
  }

  lemma {:induction false} SameMade(s: State, t: State, id: nat)
    requires s.op == t.op
    ensures MadeByOp(s, id) <==> MadeByOp(t, id)
  {
  }

  lemma {:induction false} WriteTidy(s: State)
    requires Inv(s) && Tidy(s) && Enabled(s, WriteSeg)
    ensures Tidy(Next(s, WriteSeg))
  {
    hide Inv, S.Published, Owned, ToWrite;
    var t := Next(s, WriteSeg);
    forall name | name in t.disk.files ensures S.Published(t, name) || Owned(t, name) {
      PublishedStays(s, t, name);
      if name in s.disk.files {
        OwnedStays(s, t, name);
      } else {
        IsOwned(t, |s.segs|);
      }
    }
    forall id: nat | id < |t.segs| && !t.segs[id].adopted && t.segs[id].closed == 0 ensures MadeByOp(t, id) {
      assert id < |s.segs| ==> MadeByOp(s, id);
    }
  }

  lemma {:induction false} IsOwned(s: State, id: nat)
    requires id < |s.segs| && Needs(s.segs[id])
    ensures Owned(s, s.segs[id].name)
  {
  }

  lemma {:induction false} DiscardView(s: State, t: State)
    requires Enabled(s, Discard) && t == Next(s, Discard)
    ensures s.op.Busy? && s.op.made != [] && t.op == s.op.(made := s.op.made[..|s.op.made| - 1])
    ensures var id := s.op.made[|s.op.made| - 1];
      && id < |s.segs| && t.segs == s.segs[id := s.segs[id].(closed := s.segs[id].closed + 1)]
      && t.disk == s.disk.(files := s.disk.files - {s.segs[id].name}) && t.closing == s.closing
  {
    hide ToWrite;
  }

  lemma {:induction false} DiscardTidy(s: State)
    requires Inv(s) && Tidy(s) && Enabled(s, Discard)
    ensures Tidy(Next(s, Discard))
  {
    var t := Next(s, Discard);
    DiscardView(s, t);
    hide Inv, Enabled, Next, S.Published, Owned, MadeByOp;
    forall name | name in t.disk.files ensures S.Published(t, name) || Owned(t, name) {
      PublishedStays(s, t, name);
      OwnedStays(s, t, name);
    }
    forall id: nat | id < |t.segs| && !t.segs[id].adopted && t.segs[id].closed == 0 ensures MadeByOp(t, id) {
      MadeShrinks(s, t, id);
    }
  }

  lemma {:induction false} MadeShrinks(s: State, t: State, id: nat)
    requires s.op.Busy? && s.op.made != [] && t.op == s.op.(made := s.op.made[..|s.op.made| - 1])
    ensures MadeByOp(s, id) && id != s.op.made[|s.op.made| - 1] ==> MadeByOp(t, id)
  {
    assert s.op.made == s.op.made[..|s.op.made| - 1] + [s.op.made[|s.op.made| - 1]];
  }

  // ---------------------------------------------------------------------------------------------
  // Publishing and installing

  /** The segments of the published generation still need their files. */
  lemma {:induction false} BasisNeeds(s: State, i: nat)
    requires Inv(s) && (s.closing.Open? || PreSwap(s.op)) && i < |s.entries|
    ensures Owned(s, s.entries[i].name)
  {
    var b := s.snaps[Basis(s)];
    assert Corresponds(s);
    var id := b.segs[i];
    var r := s.segs[id];
    assert r.name == s.entries[i].name && r.adopted && (r.retired ==> r.keep);
    assert SegOk(s, id);
    if !Closes(s.closing) {
      assert Roles(s, Basis(s)) > 0;
      HeldSegs(s, Basis(s), i);
    }
    IsOwned(s, id);
  }

  lemma {:induction false} PublishedNeeds(s: State, name: Name)
    requires Inv(s) && Enabled(s, Publish) && S.Published(s, name)
    ensures Owned(s, name)
  {
    assert s.entries == s.disk.manifest.value.entries by { assert DiskOk(s); }
    hide Inv;
    var i :| 0 <= i < |s.disk.manifest.value.entries| && s.disk.manifest.value.entries[i].name == name;
    BasisNeeds(s, i);
  }

  lemma {:induction false} PublishView(s: State, t: State)
    requires Enabled(s, Publish) && t == Next(s, Publish)
    ensures t.disk.files == s.disk.files && t.segs == s.segs && t.closing == s.closing
    ensures s.op.Busy? && t.op.Busy? && t.op.made == s.op.made
  {
    hide NewEntries, ToWrite;
  }

  lemma {:induction false} PublishTidy(s: State)
    requires Inv(s) && Tidy(s) && Enabled(s, Publish)
    ensures Tidy(Next(s, Publish))
  {
    var t := Next(s, Publish);
    PublishView(s, t);
    hide Inv, Enabled, Next, S.Published, Owned, MadeByOp;
    forall name | name in t.disk.files ensures S.Published(t, name) || Owned(t, name) {
      if S.Published(s, name) { PublishedNeeds(s, name); }
      OwnedStays(s, t, name);
    }
    forall id: nat | id < |t.segs| && !t.segs[id].adopted && t.segs[id].closed == 0 ensures MadeByOp(t, id) {
      MadeStays(s, t, id);
    }
  }

  lemma {:induction false} MadeStays(s: State, t: State, id: nat)
    requires s.op.Busy? ==> t.op.Busy? && t.op.made == s.op.made
    ensures MadeByOp(s, id) ==> MadeByOp(t, id)
  {
  }

  /** Every segment that a compaction wrote has its slot. */
  lemma {:induction false} SlotOf(ps: seq<Piece>, m: nat) returns (i: nat)
    requires m < FreshBefore(ps, |ps|)
    ensures i < |ps| && ps[i].from.None? && FreshBefore(ps, i) == m
  {
    var n := |ps| - 1;
    if m == FreshBefore(ps, n) {
      i := n;
    } else {
      FreshBeforePrefix(ps, n);
      i := SlotOf(ps[..n], m);
      FreshBeforePrefix(ps, i);
    }
  }

  /** Everything the operation made is in the snapshot it installs. */
  lemma {:induction false} MadeAreNew(s: State, m: nat)
    requires MadeOk(s) && Enabled(s, Swap) && m < |s.op.made|
    ensures s.op.made[m] in NewSegs(s)
  {
    MadeCount(s);
    hide MadeOk;
    match s.op.kind
    case Stack(_) =>
      var old_ := s.snaps[s.cur].segs;
      assert (old_ + s.op.made)[|old_| + m] == s.op.made[m];
    case Rebase(_, _) =>
    case Fold(sn, ps) =>
      var i := SlotOf(ps, m);
      SlotHolds(ps, s.snaps[sn].segs, s.op.made, i);
  }

  lemma {:induction false} SlotHolds(ps: seq<Piece>, old_: seq<nat>, new_: seq<nat>, i: nat)
    requires Slotted(ps, |old_|, |new_|) && i < |ps| && ps[i].from.None?
    ensures FreshBefore(ps, i) < |new_| && new_[FreshBefore(ps, i)] in Slots(ps, old_, new_)
  {
    assert Slots(ps, old_, new_)[i] == new_[FreshBefore(ps, i)];
  }

  lemma {:induction false} SwapAdopts(s: State, t: State, id: nat)
    requires MadeOk(s) && SwapView(s, t) && id < |s.segs| && MadeByOp(s, id)
    ensures t.segs[id].adopted
  {
    var m :| 0 <= m < |s.op.made| && s.op.made[m] == id;
    MadeAreNew(s, m);
    hide MadeOk, NewSegs, Retired, NewEntries, Startable;
    assert Swapped1(s.segs[id], t.segs[id], id in Retired(s), Times(NewSegs(s), id));
  }

  lemma {:induction false} SwapFate(s: State, t: State, id: nat)
    requires SwapView(s, t) && id < |s.segs|
    ensures var r, q := s.segs[id], t.segs[id];
      && q.name == r.name && q.closed == r.closed && q.keep == r.keep && (r.retired ==> q.retired) && (r.adopted ==> q.adopted)
  {
    hide NewSegs, Retired, NewEntries, Startable;
    assert Swapped1(s.segs[id], t.segs[id], id in Retired(s), Times(NewSegs(s), id));
  }

  lemma {:induction false} SwapTidy(s: State)
    requires Inv(s) && Tidy(s) && Enabled(s, Swap)
    ensures Tidy(Next(s, Swap))
  {
    var t := Next(s, Swap);
    SwapViews(s, t);
    assert MadeOk(s);
    assert |t.segs| == |s.segs| && t.disk == s.disk && t.closing == s.closing;
    hide Inv, MadeOk, Enabled, Next, S.Published, Owned, MadeByOp, SwapView;
    forall id: nat | id < |s.segs| ensures var r, q := s.segs[id], t.segs[id];
      && q.name == r.name && q.closed == r.closed && q.keep == r.keep && (r.retired ==> q.retired) && (r.adopted ==> q.adopted)
    {
      SwapFate(s, t, id);
    }
    forall name | name in t.disk.files ensures S.Published(t, name) || Owned(t, name) {
      PublishedStays(s, t, name);
      OwnedStays(s, t, name);
    }
    forall id: nat | id < |t.segs| && t.segs[id].closed == 0 ensures t.segs[id].adopted {
      if !s.segs[id].adopted { SwapAdopts(s, t, id); }
    }
  }

  lemma {:induction false} MarkTidy(s: State)
    requires Inv(s) && Tidy(s) && Enabled(s, Mark)
    ensures Tidy(Next(s, Mark))
  {
    hide Inv, S.Published, Owned, MadeByOp;
    var t := Next(s, Mark);
    forall name | name in t.disk.files ensures S.Published(t, name) || Owned(t, name) {
      PublishedStays(s, t, name);
      OwnedStays(s, t, name);
    }
    forall id: nat | id < |t.segs| && !t.segs[id].adopted && t.segs[id].closed == 0 ensures MadeByOp(t, id) {
      SameMade(s, t, id);
    }
  }

  /** Loading leaves only what the manifest lists. */
  lemma {:induction false} LoadTidy(d: Disk)
    ensures var t := Load(d);
      && Tidy(t)
      && forall name :: name in t.disk.files <==> Loadable(d) && exists i :: 0 <= i < |d.manifest.value.entries| && d.manifest.value.entries[i].name == name
  {
    hide InOrder;
    var t := Load(d);
    if Loadable(d) {
      var es := d.manifest.value.entries;
      forall name ensures name in t.disk.files <==> exists i :: 0 <= i < |es| && es[i].name == name {
        if name in EntryNames(es) {
          var i :| 0 <= i < |es| && EntryNames(es)[i] == name;
          assert es[i].name == name;
        }
        if exists i :: 0 <= i < |es| && es[i].name == name {
          var i :| 0 <= i < |es| && es[i].name == name;
          assert EntryNames(es)[i] == name;
        }
      }
    }
  }

  // ---------------------------------------------------------------------------------------------
  // Every run

  lemma {:induction false} StepTidies(s: State, step: Step)
    requires Inv(s) && Tidy(s) && Enabled(s, step)
    ensures Tidy(Next(s, step))
  {
    hide Inv, Tidy, Enabled, Next;
    match step
    case CloseSeg(id) => CloseTidy(s, id);
    case WriteSeg => WriteTidy(s);
    case Discard => DiscardTidy(s);
    case Publish => PublishTidy(s);
    case Swap => SwapTidy(s);
    case Mark => MarkTidy(s);
    case Crash => LoadTidy(s.disk); CrashLoads(s);
    case _ =>
      PlainSteps(s, Next(s, step), step);
      PlainTidy(s, Next(s, step));
  }

  lemma {:induction false} CrashLoads(s: State)
    requires Enabled(s, Crash)
    ensures Next(s, Crash) == Load(s.disk)
  {
  }

  lemma {:induction false} RunTidies(states: seq<State>, steps: seq<Step>, d: Disk, n: nat)
    requires Run(states, steps, d) && n < |states|
    ensures Inv(states[n]) && Tidy(states[n])
  {
    hide Inv, Tidy, Enabled, Next, DiskGood;
    RunKeeps(states, steps, d, n);
    if n == 0 {
      LoadTidy(d);
    } else {
      RunTidies(states, steps, d, n - 1);
      StepTidies(states[n - 1], steps[n - 1]);
    }
  }

  /**
   In every run every file on disk is named in the manifest, or belongs to a segment that is not closed yet, or to one that
   Close closed with its file kept.
   */
  lemma {:induction false} NothingLeaks(states: seq<State>, steps: seq<Step>, d: Disk, n: nat, name: Name)
    requires Run(states, steps, d) && n < |states| && name in states[n].disk.files
    ensures var s := states[n];
      || S.Published(s, name)
      || exists id: nat :: id < |s.segs| && s.segs[id].name == name && (s.segs[id].closed == 0 || (s.segs[id].retired && s.segs[id].keep))
  {
    RunTidies(states, steps, d, n);
    hide Run;
    var s := states[n];
    if Owned(s, name) {
      var id: nat :| id < |s.segs| && s.segs[id].name == name && Needs(s.segs[id]);
    }
  }

  /** Nothing runs, nobody but the store holds a snapshot, and no released segment is still to be looked at. */
  ghost predicate AtRest(s: State)
  {
    && s.op.Idle? && s.closing.Open? && s.zeros == {}
    && forall k :: 0 <= k < |s.snaps| && k != s.cur ==> s.snaps[k].rest == []
  }

  lemma {:induction false} RestIsExact(s: State, name: Name)
    requires Inv(s) && Tidy(s) && AtRest(s)
    ensures name in s.disk.files <==> S.Published(s, name)
  {
    if S.Published(s, name) {
      assert DiskOk(s);
    } else if name in s.disk.files {
      var id: nat :| id < |s.segs| && s.segs[id].name == name && Needs(s.segs[id]);
      OpenIsPublished(s, id);
    }
  }

  /** At rest, with the store open, the files are exactly those the manifest names. */
  lemma {:induction false} FilesAtRest(states: seq<State>, steps: seq<Step>, d: Disk, n: nat, name: Name)
    requires Run(states, steps, d) && n < |states| && AtRest(states[n])
    ensures name in states[n].disk.files <==> S.Published(states[n], name)
  {
    RunTidies(states, steps, d, n);
    RestIsExact(states[n], name);
  }

  lemma {:induction false} OpenIsPublished(s: State, id: nat)
    requires Inv(s) && Tidy(s) && AtRest(s) && id < |s.segs| && Needs(s.segs[id])
    ensures S.Published(s, s.segs[id].name)
  {
    assert SegOk(s, id);
    assert s.segs[id].closed == 0 && s.segs[id].adopted;
    assert s.segs[id].refs > 0;
    OnlyCurrent(s.snaps, s.cur, id);
    assert s.snaps[s.cur].rest == s.snaps[s.cur].segs by { assert Roles(s, s.cur) > 0; }
    var i :| 0 <= i < |s.snaps[s.cur].segs| && s.snaps[s.cur].segs[i] == id;
    assert Corresponds(s) && s.entries[i].name == s.segs[id].name;
  }

  /** A segment counted only by the current snapshot is in it. */
  lemma {:induction false} OnlyCurrent(snaps: seq<Snap>, cur: nat, id: nat)
    requires Count(snaps, id) > 0 && forall k :: 0 <= k < |snaps| && k != cur ==> snaps[k].rest == []
    ensures cur < |snaps| && id in snaps[cur].rest
  {
    var n := |snaps| - 1;
    if n != cur {
      assert Times(snaps[n].rest, id) == 0;
      OnlyCurrent(snaps[..n], cur, id);
    } else if Times(snaps[n].rest, id) == 0 {
      NothingCounted(snaps[..n], id);
    }
  }

  lemma {:induction false} NothingCounted(snaps: seq<Snap>, id: nat)
    requires forall k :: 0 <= k < |snaps| ==> snaps[k].rest == []
    ensures Count(snaps, id) == 0
  {
    if snaps != [] { NothingCounted(snaps[..|snaps| - 1], id); }
  }
}
