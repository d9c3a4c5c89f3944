/**
 Nothing gets stuck: from every reachable state with the store open, the operation that runs can end, with its effect
 published, and every snapshot and segment that is no longer needed can be released.
 */
module LifetimeProgress {
  import opened Common
  import opened Order
  import opened Layers
  import opened Compaction
  import opened Lifetime
  import opened LifetimeSafety
  import opened LifetimeTidy
  import S = LifetimeSafety

  /** The steps lead from s to z. */
  ghost predicate Path(s: State, steps: seq<Step>, z: State)
    decreases |steps|
  {
    if steps == [] then z == s else Enabled(s, steps[0]) && Path(Next(s, steps[0]), steps[1..], z)
  }

  /** Neither a crash nor the store's end. */
  predicate Working(step: Step)
  {
    !step.Crash? && !step.Detach? && !step.Start? && !step.Take?
  }

  /** The live map once the running operation has been published, unless it has failed. */
  ghost function Due(s: State): map<Path, File>
    requires Loadable(s.disk) || s.disk.manifest.None?
  {
    if s.op.Busy? && s.op.phase.Writing? then After(s.op.kind, LiveMap(s.disk)) else LiveMap(s.disk)
  }

  // ---------------------------------------------------------------------------------------------
  // What is left to do

  function OpLeft(op: Op): nat
    requires op.Busy? ==> |op.made| <= |ToWrite(op.kind)|
  {
    match op
    case Idle => 0
    case Busy(kind, _, made, phase) =>
      match phase
      case Writing => 5 + |ToWrite(kind)| - |made|
      case Failing => 3 + |made|
      case Published => 4
      case Swapped(_) => 3
      case Finishing => 2
  }

  function Readers(snaps: seq<Snap>): nat
  {
    if snaps == [] then 0 else Readers(snaps[..|snaps| - 1]) + snaps[|snaps| - 1].readers
  }

  function Rests(snaps: seq<Snap>): nat
  {
    if snaps == [] then 0 else Rests(snaps[..|snaps| - 1]) + |snaps[|snaps| - 1].rest|
  }

  lemma {:induction false} LeftAfter(snaps: seq<Snap>, k: nat, sn: Snap)
    requires k < |snaps|
    ensures Readers(snaps[k := sn]) == Readers(snaps) - snaps[k].readers + sn.readers
    ensures Rests(snaps[k := sn]) == Rests(snaps) - |snaps[k].rest| + |sn.rest|
  {
    var n := |snaps| - 1;
    if k < n {
      LeftAfter(snaps[..n], k, sn);
      assert snaps[k := sn][..n] == snaps[..n][k := sn];
    } else {
      assert snaps[k := sn][..n] == snaps[..n];
    }
  }

  ghost predicate Sized(s: State)
  {
    s.op.Busy? ==> |s.op.made| <= |ToWrite(s.op.kind)|
  }

  /** Less is left to do in t than in s. */
  ghost predicate Nearer(t: State, s: State)
    requires Sized(s) && Sized(t)
  {
    OpLeft(t.op) < OpLeft(s.op) || (OpLeft(t.op) == OpLeft(s.op) && (Readers(t.snaps) < Readers(s.snaps)
      || (Readers(t.snaps) == Readers(s.snaps) && (Rests(t.snaps) < Rests(s.snaps)
      || (Rests(t.snaps) == Rests(s.snaps) && |t.zeros| < |s.zeros|)))))
  }

  // ---------------------------------------------------------------------------------------------
  // There is always a next step

  lemma {:induction false} Parts(s: State)
    requires Inv(s)
    ensures IdsOk(s) && SnapsOk(s) && MadeOk(s) && Corresponds(s) && KindOk(s) && WritingOk(s) && Sized(s) && DiskGood(s.disk)
  {
    hide IdsOk, CountsOk, SnapsOk, SegsOk, Corresponds, KindOk, WritingOk, FilesSafe, DiskGood, ToWrite;
  }

  lemma {:induction false} SlottedMore(ps: seq<Piece>, a: nat, b: nat, n: nat)
    requires Slotted(ps, a, n) && a <= b
    ensures Slotted(ps, b, n)
  {
  }

  lemma {:induction false} BoundsFit(shards: seq<Segment>, los: seq<Path>)
    requires Base(shards, los)
    ensures |shards| == |los|
  {
  }

  lemma {:induction false} CanPublish(s: State)
    requires Inv(s) && s.op.Busy? && s.op.phase.Writing? && |s.op.made| == |ToWrite(s.op.kind)| && s.closing.Open?
    ensures Enabled(s, Publish)
  {
    hide Inv, Base, Meaning, Listed, InOrder, Contents, MadeOk, WritingOk, SnapsOk, DiskGood;
    Parts(s);
    match s.op.kind
    case Stack(_) =>
    case Rebase(shards, los) => BoundsFit(shards, los);
    case Fold(sn, ps) =>
      assert sn == s.cur && |s.entries| == |s.snaps[sn].segs|;
      SlottedMore(ps, s.snaps[sn].nShards, |s.entries|, |FreshSegs(ps)|);
  }

  lemma {:induction false} CanSwap(s: State)
    requires Inv(s) && s.op.Busy? && s.op.phase.Published?
    ensures Enabled(s, Swap)
  {
    hide Inv, Base, Meaning, Listed, InOrder, Contents, Corresponds, SnapsOk, DiskGood, NewEntries;
    Parts(s);
    if s.op.kind.Fold? {
      var sn := s.snaps[s.op.kind.sn];
      SlottedMore(s.op.kind.ps, sn.nShards, |sn.segs|, |FreshSegs(s.op.kind.ps)|);
    }
  }

  /** The next step of the running operation. */
  lemma {:induction false} OpStep(s: State) returns (step: Step)
    requires Inv(s) && s.op.Busy? && s.closing.Open?
    ensures Working(step) && Enabled(s, step)
    ensures step.WriteSeg? || step.Publish? || step.Discard? || step.Finish? || step.Swap? || step.ReleasePrev?
    ensures s.op.phase.Writing? ==> step.WriteSeg? || step.Publish?
  {
    hide Inv, Corresponds, KindOk, WritingOk, SnapsOk, DiskGood;
    Parts(s);
    match s.op.phase
    case Writing =>
      if |s.op.made| < |ToWrite(s.op.kind)| { step := WriteSeg; } else {
        step := Publish;
        CanPublish(s);
      }
    case Failing => step := if s.op.made != [] then Discard else Finish;
    case Published =>
      step := Swap;
      CanSwap(s);
    case Swapped(_) => step := ReleasePrev;
    case Finishing => step := Finish;
  }

  lemma {:induction false} OpNears(s: State, step: Step)
    requires Inv(s) && s.op.Busy? && Enabled(s, step)
    requires step.WriteSeg? || step.Publish? || step.Discard? || step.Finish? || step.Swap? || step.ReleasePrev?
    ensures Sized(s) && Sized(Next(s, step)) && OpLeft(Next(s, step).op) < OpLeft(s.op) && Next(s, step).closing == s.closing
    ensures var op := Next(s, step).op; if step.WriteSeg? then op.Busy? && op.phase.Writing? && op.kind == s.op.kind else op.Busy? ==> !op.phase.Writing?
    ensures step.WriteSeg? || step.Publish? ==> s.op.phase.Writing?
  {
    hide Inv, NewEntries, NewSegs, NewShards, Retired, FreshSegs, IdsOk, Corresponds, KindOk, WritingOk, SnapsOk, DiskGood, Startable;
    Parts(s);
  }

  /** A snapshot that nothing holds can release its next segment. */
  lemma {:induction false} CanRelease(s: State, k: nat)
    requires Inv(s) && s.op.Idle? && s.closing.Open? && k < |s.snaps| && k != s.cur && s.snaps[k].readers == 0 && s.snaps[k].rest != []
    ensures Enabled(s, ReleaseSeg(k))
  {
    hide Inv, Corresponds, KindOk, WritingOk, MadeOk, DiskGood;
    Parts(s);
    assert s.snaps[k].refs == 0;
    assert s.snaps[k].rest[0] < |s.segs|;
  }

  /** The next step when no operation runs. */
  lemma {:induction false} QuietStep(s: State) returns (step: Step)
    requires Inv(s) && s.op.Idle? && s.closing.Open? && !AtRest(s)
    ensures Working(step) && Enabled(s, step) && (step.Drop? || step.ReleaseSeg? || step.CloseSeg?)
    ensures var t := Next(s, step); t.op == s.op && t.closing == s.closing && Nearer(t, s)
  {
    hide Inv, Corresponds, KindOk, WritingOk, SnapsOk, MadeOk, DiskGood;
    Parts(s);
    if k: nat :| k < |s.snaps| && s.snaps[k].readers > 0 {
      step := Drop(k);
      LeftAfter(s.snaps, k, s.snaps[k].(refs := s.snaps[k].refs - 1, readers := s.snaps[k].readers - 1));
    } else if k: nat :| k < |s.snaps| && k != s.cur && s.snaps[k].rest != [] {
      step := ReleaseSeg(k);
      CanRelease(s, k);
      LeftAfter(s.snaps, k, s.snaps[k].(rest := s.snaps[k].rest[1..]));
    } else {
      var id :| id in s.zeros;
      step := CloseSeg(id);
    }
  }

  lemma {:induction false} DiskLoads(d: Disk)
    requires DiskGood(d)
    ensures Loadable(d) || d.manifest.None?
  {
  }

  /** From every state with the store open, some step brings it nearer to rest, and what is due stays due. */
  lemma {:induction false} Forward(s: State) returns (step: Step)
    requires Inv(s) && Tidy(s) && s.closing.Open? && !AtRest(s)
    ensures Working(step) && Enabled(s, step) && Sized(s) && Sized(Next(s, step)) && Nearer(Next(s, step), s)
    ensures var t := Next(s, step); Inv(t) && Tidy(t) && t.closing.Open?
    ensures var t := Next(s, step);
      && (Loadable(s.disk) || s.disk.manifest.None?) && (Loadable(t.disk) || t.disk.manifest.None?) && Due(t) == Due(s)
  {
    hide Inv, Tidy, Enabled, Next, LiveMap, After, AtRest, IdsOk, SnapsOk, MadeOk, Corresponds, KindOk, WritingOk, DiskGood, Loadable, ToWrite;
    Parts(s);
    if s.op.Busy? {
      step := OpStep(s);
      OpNears(s, step);
    } else {
      step := QuietStep(s);
    }
    StepLive(s, step);
    StepTidies(s, step);
    Parts(Next(s, step));
    DiskLoads(s.disk);
    DiskLoads(Next(s, step).disk);
  }

  /** From every reachable state with the store open, work that is under way can end, with what was due, and all at rest. */
  lemma {:induction false} CanRest(s: State) returns (steps: seq<Step>, z: State)
    requires Inv(s) && Tidy(s) && s.closing.Open?
    ensures Path(s, steps, z) && (forall i :: 0 <= i < |steps| ==> Working(steps[i]))
    ensures Inv(z) && Tidy(z) && AtRest(z)
    ensures (Loadable(s.disk) || s.disk.manifest.None?) && (Loadable(z.disk) || z.disk.manifest.None?) && LiveMap(z.disk) == Due(s)
    decreases if Sized(s) then OpLeft(s.op) else 0, Readers(s.snaps), Rests(s.snaps), |s.zeros|
  {
    hide Inv, Tidy, Enabled, Next, LiveMap, After, IdsOk, SnapsOk, MadeOk, Corresponds, KindOk, WritingOk, DiskGood, Loadable, Readers, Rests, OpLeft;
    Parts(s);
    DiskLoads(s.disk);
    if AtRest(s) {
      steps, z := [], s;
    } else {
      var step := Forward(s);
      var rest;
      rest, z := CanRest(Next(s, step));
      steps := [step] + rest;
      assert steps[1..] == rest;
    }
  }

  /**
   In every run with the store open, the readers can drop what they hold and the operation that runs can be published, after
   which the files on disk are exactly the manifest's.
   */
  lemma {:induction false} RunCanRest(states: seq<State>, steps: seq<Step>, d: Disk, n: nat) returns (more: seq<Step>, z: State)
    requires Run(states, steps, d) && n < |states| && states[n].closing.Open?
    ensures var s := states[n];
      && Path(s, more, z) && (forall i :: 0 <= i < |more| ==> Working(more[i])) && AtRest(z)
      && (Loadable(s.disk) || s.disk.manifest.None?) && (Loadable(z.disk) || z.disk.manifest.None?) && LiveMap(z.disk) == Due(s)
      && forall name :: name in z.disk.files <==> S.Published(z, name)
  {
    hide Run, Inv, Tidy, Path, AtRest, LiveMap, Due, Loadable, S.Published;
    RunTidies(states, steps, d, n);
    more, z := CanRest(states[n]);
    forall name ensures name in z.disk.files <==> S.Published(z, name) { RestIsExact(z, name); }
  }

  /** Every operation that can start can complete: published with its effect, with no file left that the manifest does not list. */
  lemma {:induction false} OperationCompletes(states: seq<State>, steps: seq<Step>, d: Disk, n: nat, kind: Kind) returns (more: seq<Step>, z: State)
    requires Run(states, steps, d) && n < |states| && states[n].closing.Open? && Enabled(states[n], Start(kind))
    ensures var s := states[n];
      && Path(s, more, z) && AtRest(z) && (Loadable(s.disk) || s.disk.manifest.None?) && (Loadable(z.disk) || z.disk.manifest.None?)
      && LiveMap(z.disk) == After(kind, LiveMap(s.disk)) && forall name :: name in z.disk.files <==> S.Published(z, name)
  {
    RunTidies(states, steps, d, n);
    var s, t := states[n], Next(states[n], Start(kind));
    StepLive(s, Start(kind));
    StepTidies(s, Start(kind));
    Parts(s);
    DiskLoads(s.disk);
    StartsWriting(s, kind);
    hide Run, Inv, Tidy, AtRest, LiveMap, After, Loadable, S.Published, Enabled, Next;
    var rest;
    rest, z := CanRest(t);
    more := [Start(kind)] + rest;
    assert more[1..] == rest;
    forall name ensures name in z.disk.files <==> S.Published(z, name) { RestIsExact(z, name); }
  }

  lemma {:induction false} StartsWriting(s: State, kind: Kind)
    requires Enabled(s, Start(kind))
    ensures var t := Next(s, Start(kind)); t.op.Busy? && t.op.phase.Writing? && t.op.kind == kind && t.closing == s.closing
  {
  }
}
