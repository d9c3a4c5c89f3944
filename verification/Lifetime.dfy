/**
 How long segments and their files live.

 A state machine over every interleaving of readers taking and releasing snapshots with one writer (overlay
 publication, base build, compaction), Close and crashes. Segments are reference counted by the snapshots that
 contain them; the manifest on disk is replaced by one atomic rename.
 */
module Lifetime {
  import opened Common
  import opened Order
  import opened Layers
  import opened Compaction

  type Meta = int

  /** A segment file's name: its generation and its number within it. */
  datatype Name = Name(gen: nat, part: nat)

  datatype Entry = Entry(name: Name, shard: bool, lo: Path)

  datatype Manifest = Manifest(gen: nat, entries: seq<Entry>, meta: Meta)

  /** Complete files and the published manifest, if any. */
  datatype Disk = Disk(files: map<Name, Segment>, manifest: Option<Manifest>)

  /**
   An open segment. `adopted` records that some snapshot has contained it, `closed` counts how often it was
   unmapped.
   */
  datatype SegRef = SegRef(name: Name, content: Segment, refs: int, adopted: bool, retired: bool, keep: bool, closed: nat)

  /** A snapshot: `refs` references, `readers` of them callers'; `rest` are the segments it has not released yet. */
  datatype Snap = Snap(gen: nat, segs: seq<nat>, nShards: nat, refs: int, readers: nat, rest: seq<nat>)

  datatype Kind =
    | Stack(files: Segment)
    | Rebase(shards: seq<Segment>, los: seq<Path>)
    | Fold(sn: nat, ps: seq<Piece>)

  datatype Phase = Writing | Failing | Published | Swapped(prev: nat) | Finishing

  datatype Op = Idle | Busy(kind: Kind, gen: nat, made: seq<nat>, phase: Phase)

  datatype Closing = Open | Detached(was: nat) | Marked(was: nat) | Closed(was: nat)

  /** `zeros` are segments whose count was seen to reach zero and whose retired flag has yet to be looked at. */
  datatype State = State(disk: Disk, segs: seq<SegRef>, snaps: seq<Snap>, cur: nat, entries: seq<Entry>, meta: Meta,
                         op: Op, closing: Closing, zeros: set<nat>)

  // ---------------------------------------------------------------------------------------------
  // What an operation writes and publishes

  /** The number of freshly written pieces among the first i. */
  function FreshBefore(ps: seq<Piece>, i: nat): (n: nat)
    requires i <= |ps|
    ensures n <= i
  {
    if i == 0 then 0 else FreshBefore(ps, i - 1) + if ps[i - 1].from.None? then 1 else 0
  }

  predicate Slotted(ps: seq<Piece>, olds: nat, news: nat)
  {
    && (forall i :: 0 <= i < |ps| && ps[i].from.Some? ==> ps[i].from.value < olds)
    && (forall i :: 0 <= i < |ps| && ps[i].from.None? ==> FreshBefore(ps, i) < news)
  }

  /** Each piece takes its old slot's value or the next new one. */
  function Slots<T>(ps: seq<Piece>, old_: seq<T>, new_: seq<T>): (r: seq<T>)
    requires Slotted(ps, |old_|, |new_|)
    ensures |r| == |ps|
  {
    seq(|ps|, i requires 0 <= i < |ps| =>
      match ps[i].from case Some(k) => old_[k] case None => new_[FreshBefore(ps, i)])
  }

  /** The segments an operation writes, in order. */
  function ToWrite(kind: Kind): seq<Segment>
  {
    match kind
    case Stack(files) => [files]
    case Rebase(shards, _) => shards
    case Fold(_, ps) => FreshSegs(ps)
  }

  function FreshSegs(ps: seq<Piece>): (r: seq<Segment>)
    ensures |r| == FreshBefore(ps, |ps|)
  {
    if ps == [] then []
    else
      var n := |ps| - 1;
      FreshBeforePrefix(ps, n);
      FreshSegs(ps[..n]) + if ps[n].from.None? then [ps[n].seg] else []
  }

  lemma {:induction false} FreshBeforePrefix(ps: seq<Piece>, i: nat)
    requires i < |ps|
    ensures FreshBefore(ps[..|ps| - 1], i) == FreshBefore(ps, i)
  {
    if i > 0 { FreshBeforePrefix(ps, i - 1); }
  }

  lemma {:induction false} FreshSegAt(ps: seq<Piece>, i: nat)
    requires i < |ps| && ps[i].from.None?
    ensures FreshBefore(ps, i) < |FreshSegs(ps)| && FreshSegs(ps)[FreshBefore(ps, i)] == ps[i].seg
  {
    var n := |ps| - 1;
    FreshBeforePrefix(ps, n);
    if i < n {
      FreshSegAt(ps[..n], i);
      FreshBeforePrefix(ps, i);
    }
  }

  function Names(gen: nat, n: nat): (r: seq<Name>)
    ensures |r| == n && forall i :: 0 <= i < n ==> r[i] == Name(gen, i)
  {
    seq(n, i requires 0 <= i < n => Name(gen, i))
  }

  function EntryNames(es: seq<Entry>): (r: seq<Name>)
    ensures |r| == |es| && forall i :: 0 <= i < |es| ==> r[i] == es[i].name
  {
    seq(|es|, i requires 0 <= i < |es| => es[i].name)
  }

  /** What an operation can be started with. */
  ghost predicate Startable(s: State, kind: Kind)
    requires s.cur < |s.snaps|
  {
    match kind
    case Stack(files) => files != []
    case Rebase(shards, los) => shards != [] && Base(shards, los)
    case Fold(sn, ps) =>
      && sn == s.cur
      && Base(Segs(ps), Los(ps)) && ps != []
      && Slotted(ps, s.snaps[sn].nShards, |FreshSegs(ps)|) && s.snaps[sn].nShards <= |s.snaps[sn].segs|
      && (forall i :: 0 <= i < |s.snaps[sn].segs| ==> s.snaps[sn].segs[i] < |s.segs|)
      && Meaning(Segs(ps)) == Meaning(Contents(s.segs, s.snaps[sn].segs))
      && (forall i :: 0 <= i < |ps| && ps[i].from.Some? ==> ps[i].seg == s.segs[s.snaps[sn].segs[ps[i].from.value]].content)
      && (forall i, j :: 0 <= i < j < |ps| && ps[i].from.Some? ==> ps[i].from != ps[j].from)
  }

  /** What Compact returns for the current snapshot is something the store can publish. */
  lemma {:induction false} CompactionCanStart(s: State, ps: seq<Piece>, touched: set<int>, shardBytes: nat)
    requires s.cur < |s.snaps| && s.snaps[s.cur].nShards <= |s.snaps[s.cur].segs|
    requires forall i :: 0 <= i < |s.snaps[s.cur].segs| ==> s.snaps[s.cur].segs[i] < |s.segs|
    requires var segs := Contents(s.segs, s.snaps[s.cur].segs);
      && Base(Segs(ps), Los(ps)) && ps != [] && Meaning(Segs(ps)) == Meaning(segs)
      && (Reuses(ps, segs, touched, s.snaps[s.cur].nShards, shardBytes) || ps == [EMPTY_PIECE])
    ensures Startable(s, Fold(s.cur, ps))
  {
    hide Base, Meaning;
    forall i | 0 <= i < |ps| && ps[i].from.None? ensures FreshBefore(ps, i) < |FreshSegs(ps)| { FreshSegAt(ps, i); }
  }

  function Contents(segs: seq<SegRef>, ids: seq<nat>): (r: seq<Segment>)
    requires forall i :: 0 <= i < |ids| ==> ids[i] < |segs|
    ensures |r| == |ids| && forall i :: 0 <= i < |ids| ==> r[i] == segs[ids[i]].content
  {
    seq(|ids|, i requires 0 <= i < |ids| => segs[ids[i]].content)
  }

  /** The entries the operation publishes. */
  function NewEntries(entries: seq<Entry>, kind: Kind, gen: nat): seq<Entry>
    requires kind.Rebase? ==> |kind.shards| == |kind.los|
    requires kind.Fold? ==> Slotted(kind.ps, |entries|, |FreshSegs(kind.ps)|)
  {
    match kind
    case Stack(_) => entries + [Entry(Name(gen, 0), false, "")]
    case Rebase(shards, los) => seq(|shards|, i requires 0 <= i < |shards| => Entry(Name(gen, i), true, los[i]))
    case Fold(_, ps) =>
      var names := Slots(ps, EntryNames(entries), Names(gen, |FreshSegs(ps)|));
      seq(|ps|, i requires 0 <= i < |ps| => Entry(names[i], true, ps[i].lo))
  }

  // ---------------------------------------------------------------------------------------------
  // Counting

  function Times(ids: seq<nat>, id: nat): (n: nat)
    ensures n > 0 <==> id in ids
  {
    multiset(ids)[id]
  }

  function Bump(segs: seq<SegRef>, ids: seq<nat>): (r: seq<SegRef>)
    ensures |r| == |segs|
  {
    seq(|segs|, i requires 0 <= i < |segs| =>
      segs[i].(refs := segs[i].refs + Times(ids, i), adopted := segs[i].adopted || i in ids))
  }

  function Retire(segs: seq<SegRef>, ids: set<nat>, keep: bool): (r: seq<SegRef>)
    ensures |r| == |segs|
  {
    seq(|segs|, i requires 0 <= i < |segs| =>
      if i in ids then segs[i].(retired := true, keep := segs[i].keep || keep) else segs[i])
  }

  /** How many unfinished snapshots contain segment id. */
  function Count(snaps: seq<Snap>, id: nat): nat
  {
    if snaps == [] then 0 else Count(snaps[..|snaps| - 1], id) + Times(snaps[|snaps| - 1].rest, id)
  }

  lemma {:induction false} CountUpdate(snaps: seq<Snap>, k: nat, sn: Snap, id: nat)
    requires k < |snaps|
    ensures Count(snaps[k := sn], id) == Count(snaps, id) - Times(snaps[k].rest, id) + Times(sn.rest, id)
  {
    var n := |snaps| - 1;
    if k < n {
      CountUpdate(snaps[..n], k, sn, id);
      assert snaps[k := sn][..n] == snaps[..n][k := sn];
    } else {
      assert snaps[k := sn][..n] == snaps[..n];
    }
  }

  lemma {:induction false} CountIn(snaps: seq<Snap>, k: nat, id: nat)
    requires k < |snaps| && id in snaps[k].rest
    ensures Count(snaps, id) > 0
  {
    var n := |snaps| - 1;
    if k < n { CountIn(snaps[..n], k, id); }
  }

  // ---------------------------------------------------------------------------------------------
  // Recovery: what load makes of a disk

  /** Shards ordered by their bound from "", then overlays. */
  predicate InOrder(es: seq<Entry>)
  {
    if es == [] then true
    else
      var n := |es| - 1;
      InOrder(es[..n]) &&
      (es[n].shard ==> if n == 0 then es[n].lo == "" else es[n - 1].shard && Less(es[n - 1].lo, es[n].lo))
  }

  function FilesOf(d: Disk, es: seq<Entry>): (r: seq<Segment>)
    requires forall i :: 0 <= i < |es| ==> es[i].name in d.files
    ensures |r| == |es| && forall i :: 0 <= i < |es| ==> r[i] == d.files[es[i].name]
  {
    seq(|es|, i requires 0 <= i < |es| => d.files[es[i].name])
  }

  predicate Loadable(d: Disk)
  {
    d.manifest.Some? && InOrder(d.manifest.value.entries) &&
    forall i :: 0 <= i < |d.manifest.value.entries| ==> d.manifest.value.entries[i].name in d.files
  }

  function NumShards(es: seq<Entry>): (n: nat)
    ensures n <= |es|
  {
    if es == [] then 0 else NumShards(es[..|es| - 1]) + if es[|es| - 1].shard then 1 else 0
  }

  /** load: opens what the manifest lists, or discards the index; orphan files are removed either way. */
  function Load(d: Disk): State
  {
    if Loadable(d) then
      var m := d.manifest.value;
      var n := |m.entries|;
      var ids := seq(n, i requires 0 <= i < n => i as nat);
      var segs := seq(n, i requires 0 <= i < n =>
        SegRef(m.entries[i].name, d.files[m.entries[i].name], 1, true, false, false, 0));
      State(Disk(map f | f in d.files && f in EntryNames(m.entries) :: d.files[f], d.manifest),
            segs, [Snap(m.gen, ids, NumShards(m.entries), 1, 0, ids)], 0, m.entries, m.meta, Idle, Open, {})
    else
      State(Disk(map[], None), [], [Snap(0, [], 0, 1, 0, [])], 0, [], 0, Idle, Open, {})
  }

  /** The live map the published generation stands for. */
  ghost function LiveMap(d: Disk): map<Path, File>
    requires Loadable(d) || d.manifest.None?
  {
    if d.manifest.None? then map[] else Meaning(FilesOf(d, d.manifest.value.entries))
  }

  // ---------------------------------------------------------------------------------------------
  // The steps

  datatype Step =
    | Take                          // a reader takes the current snapshot
    | Drop(k: nat)                  // a reader releases snapshot k
    | ReleaseSeg(k: nat)            // finished snapshot k releases its next segment
    | CloseSeg(id: nat)             // whoever saw the count reach zero looks at the retired flag
    | Start(kind: Kind)             // the writer begins
    | WriteSeg                      // one more segment file is durable and open
    | Fail                          // an error before publication
    | Discard                       // the failed operation closes and removes one of its segments
    | Publish                       // the manifest is renamed into place
    | Swap                          // the new snapshot becomes current
    | ReleasePrev                   // the store drops the previous snapshot
    | Finish                        // the operation ends, dropping the snapshot it held
    | StageMeta(meta: Meta)
    | SaveMeta                      // the staged metadata is persisted with the published generation
    | Detach                        // Close: an empty snapshot becomes current
    | Mark                          // Close: the published segments are retired but their files kept
    | Release                       // Close: the store drops the snapshot it detached
    | Crash                         // the process dies and the index is loaded again

  function DropRef(snaps: seq<Snap>, k: nat): seq<Snap>
    requires k < |snaps|
  {
    snaps[k := snaps[k].(refs := snaps[k].refs - 1)]
  }

  predicate PreSwap(op: Op)
  {
    op.Busy? && (op.phase.Writing? || op.phase.Failing? || op.phase.Published?)
  }

  /** The segments that make up the snapshot an operation installs. */
  function NewSegs(s: State): seq<nat>
    requires s.op.Busy? && s.cur < |s.snaps|
    requires s.op.kind.Fold? ==> s.op.kind.sn < |s.snaps| && Slotted(s.op.kind.ps, |s.snaps[s.op.kind.sn].segs|, |s.op.made|)
  {
    match s.op.kind
    case Stack(_) => s.snaps[s.cur].segs + s.op.made
    case Rebase(_, _) => s.op.made
    case Fold(sn, ps) => Slots(ps, s.snaps[sn].segs, s.op.made)
  }

  /** The segments the swap retires. */
  function Retired(s: State): set<nat>
    requires s.op.Busy? && s.cur < |s.snaps|
    requires s.op.kind.Fold? ==> s.op.kind.sn < |s.snaps|
  {
    match s.op.kind
    case Stack(_) => {}
    case Rebase(_, _) => set id | id in s.snaps[s.cur].segs
    case Fold(sn, ps) =>
      (set i | 0 <= i < |s.snaps[s.cur].segs| && s.snaps[s.cur].nShards <= i :: s.snaps[s.cur].segs[i]) +
      (set i | 0 <= i < |s.snaps[sn].segs| && i < s.snaps[sn].nShards && !ReusedSlot(ps, i) :: s.snaps[sn].segs[i])
  }

  predicate ReusedSlot(ps: seq<Piece>, k: nat)
  {
    exists i :: 0 <= i < |ps| && ps[i].from == Some(k)
  }

  function NewShards(s: State): nat
    requires s.op.Busy? && s.cur < |s.snaps|
  {
    match s.op.kind
    case Stack(_) => s.snaps[s.cur].nShards
    case Rebase(shards, _) => |shards|
    case Fold(_, ps) => |ps|
  }

  ghost predicate Enabled(s: State, step: Step)
  {
    s.cur < |s.snaps| &&
    match step
    case Take => true
    case Drop(k) => k < |s.snaps| && s.snaps[k].readers > 0
    case ReleaseSeg(k) => k < |s.snaps| && s.snaps[k].refs == 0 && s.snaps[k].rest != [] && s.snaps[k].rest[0] < |s.segs|
    case CloseSeg(id) => id in s.zeros && id < |s.segs|
    case Start(kind) => s.op.Idle? && s.closing.Open? && Startable(s, kind)
    case WriteSeg => s.op.Busy? && s.op.phase.Writing? && |s.op.made| < |ToWrite(s.op.kind)|
    case Fail => s.op.Busy? && s.op.phase.Writing?
    case Discard => s.op.Busy? && s.op.phase.Failing? && s.op.made != [] && s.op.made[|s.op.made| - 1] < |s.segs|
    case Publish =>
      && s.op.Busy? && s.op.phase.Writing? && |s.op.made| == |ToWrite(s.op.kind)|
      && (s.op.kind.Rebase? ==> |s.op.kind.shards| == |s.op.kind.los|)
      && (s.op.kind.Fold? ==> Slotted(s.op.kind.ps, |s.entries|, |FreshSegs(s.op.kind.ps)|))
    case Swap =>
      && s.op.Busy? && s.op.phase.Published?
      && (s.op.kind.Rebase? ==> |s.op.kind.shards| == |s.op.kind.los|)
      && (s.op.kind.Fold? ==> s.op.kind.sn < |s.snaps| && Slotted(s.op.kind.ps, |s.snaps[s.op.kind.sn].segs|, |s.op.made|)
                              && Slotted(s.op.kind.ps, |s.entries|, |FreshSegs(s.op.kind.ps)|))
    case ReleasePrev => s.op.Busy? && s.op.phase.Swapped? && s.op.phase.prev < |s.snaps|
    case Finish =>
      && s.op.Busy? && (s.op.phase.Finishing? || (s.op.phase.Failing? && s.op.made == []))
      && (s.op.kind.Fold? ==> s.op.kind.sn < |s.snaps|)
    case StageMeta(_) => true
    case SaveMeta => s.op.Idle?
    case Detach => s.closing.Open?
    case Mark => s.closing.Detached? && s.closing.was < |s.snaps|
    case Release => s.closing.Marked? && s.closing.was < |s.snaps|
    case Crash => true
  }

  ghost function Next(s: State, step: Step): State
    requires Enabled(s, step)
  {
    match step
    case Take =>
      var sn := s.snaps[s.cur];
      s.(snaps := s.snaps[s.cur := sn.(refs := sn.refs + 1, readers := sn.readers + 1)])
    case Drop(k) =>
      var sn := s.snaps[k];
      s.(snaps := s.snaps[k := sn.(refs := sn.refs - 1, readers := sn.readers - 1)])
    case ReleaseSeg(k) =>
      var sn := s.snaps[k];
      var id := sn.rest[0];
      var r := s.segs[id];
      s.(snaps := s.snaps[k := sn.(rest := sn.rest[1..])],
         segs := s.segs[id := r.(refs := r.refs - 1)],
         zeros := if r.refs == 1 then s.zeros + {id} else s.zeros)
    case CloseSeg(id) =>
      var r := s.segs[id];
      if r.retired && r.closed == 0 then
        s.(segs := s.segs[id := r.(closed := 1)],
           disk := if r.keep then s.disk else s.disk.(files := s.disk.files - {r.name}),
           zeros := s.zeros - {id})
      else s.(zeros := s.zeros - {id})
    case Start(kind) =>
      var gen := s.snaps[s.cur].gen + 1;
      var op := Busy(kind, gen, [], Writing);
      if kind.Fold? then s.(op := op, snaps := s.snaps[s.cur := s.snaps[s.cur].(refs := s.snaps[s.cur].refs + 1)])
      else s.(op := op)
    case WriteSeg =>
      var n := |s.op.made|;
      var name := Name(s.op.gen, n);
      var content := ToWrite(s.op.kind)[n];
      s.(disk := s.disk.(files := s.disk.files[name := content]),
         segs := s.segs + [SegRef(name, content, 0, false, false, false, 0)],
         op := s.op.(made := s.op.made + [|s.segs|]))
    case Fail => s.(op := s.op.(phase := Failing))
    case Discard =>
      var n := |s.op.made| - 1;
      var id := s.op.made[n];
      s.(segs := s.segs[id := s.segs[id].(closed := s.segs[id].closed + 1)],
         disk := s.disk.(files := s.disk.files - {s.segs[id].name}),
         op := s.op.(made := s.op.made[..n]))
    case Publish =>
      s.(disk := s.disk.(manifest := Some(Manifest(s.op.gen, NewEntries(s.entries, s.op.kind, s.op.gen), s.meta))),
         op := s.op.(phase := Published))
    case Swap =>
      var ids := NewSegs(s);
      s.(segs := Bump(Retire(s.segs, Retired(s), false), ids),
         snaps := s.snaps + [Snap(s.op.gen, ids, NewShards(s), 1, 0, ids)],
         cur := |s.snaps|,
         entries := NewEntries(s.entries, s.op.kind, s.op.gen),
         op := s.op.(made := [], phase := Swapped(s.cur)))
    case ReleasePrev => s.(snaps := DropRef(s.snaps, s.op.phase.prev), op := s.op.(phase := Finishing))
    case Finish =>
      if s.op.kind.Fold? then s.(snaps := DropRef(s.snaps, s.op.kind.sn), op := Idle) else s.(op := Idle)
    case StageMeta(meta) => s.(meta := meta)
    case SaveMeta =>
      if s.snaps[s.cur].gen == 0 then s
      else s.(disk := s.disk.(manifest := Some(Manifest(s.snaps[s.cur].gen, s.entries, s.meta))))
    case Detach =>
      s.(snaps := s.snaps + [Snap(0, [], 0, 1, 0, [])], cur := |s.snaps|, closing := Detached(s.cur))
    case Mark =>
      s.(segs := Retire(s.segs, set id | id in s.snaps[s.closing.was].segs, true), closing := Marked(s.closing.was))
    case Release => s.(snaps := DropRef(s.snaps, s.closing.was), closing := Closed(s.closing.was))
    case Crash => Load(s.disk)
  }
}
