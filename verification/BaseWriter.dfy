/** Streaming a complete live file set into base shards. */
module BaseWriting {
  import opened Order
  import opened Layers
  import opened Snapshots
  import opened Compaction

  /** The files a writer accepts from a stream: the live ones. */
  function Live(files: seq<File>): seq<File>
  {
    if files == [] then []
    else
      var n := |files| - 1;
      if files[n].deleted then Live(files[..n]) else Live(files[..n]) + [files[n]]
  }

  /** Shards written in path order, with the bounds the writer gives them. */
  ghost predicate Written(shards: seq<Segment>, los: seq<Path>)
  {
    && |shards| == |los|
    && (forall i :: 0 <= i < |shards| ==> los[i] == if i == 0 then "" else if shards[i] == [] then "" else shards[i][0].path)
    && (forall i :: 1 <= i < |shards| ==> shards[i] != [])
    && (forall f :: 0 <= f < |Concat(shards)| ==> !Concat(shards)[f].deleted)
    && Sorted(Concat(shards))
  }

  lemma {:induction false} ConcatAt(shards: seq<Segment>, i: nat, f: nat) returns (at: nat)
    requires i < |shards| && f < |shards[i]|
    ensures at < |Concat(shards)| && Concat(shards)[at] == shards[i][f]
    ensures |Concat(shards[..i])| <= at < |Concat(shards[..i + 1])|
  {
    var n := |shards| - 1;
    if i == n {
      at := |Concat(shards[..n])| + f;
      assert shards[..n + 1] == shards;
    } else {
      at := ConcatAt(shards[..n], i, f);
      assert shards[..n][..i] == shards[..i] && shards[..n][..i + 1] == shards[..i + 1];
    }
  }

  lemma {:induction false} ConcatMonotone(shards: seq<Segment>, i: nat, j: nat)
    requires i <= j <= |shards|
    ensures |Concat(shards[..i])| <= |Concat(shards[..j])|
  {
    if i < j {
      ConcatMonotone(shards, i, j - 1);
      assert shards[..j][..j - 1] == shards[..j - 1];
    }
  }

  lemma {:induction false} ConcatMeaning(shards: seq<Segment>)
    ensures Meaning(shards) == Alone(Concat(shards))
  {
    if shards != [] {
      var n := |shards| - 1;
      ConcatMeaning(shards[..n]);
      OverlayConcat(map[], Concat(shards[..n]), shards[n]);
    }
  }

  /** Records of an earlier shard come before those of a later one. */
  lemma {:induction false} ShardOrder(shards: seq<Segment>, i: nat, f: nat, j: nat, g: nat)
    requires Sorted(Concat(shards)) && i < j < |shards| && f < |shards[i]| && g < |shards[j]|
    ensures Less(shards[i][f].path, shards[j][g].path)
  {
    var a := ConcatAt(shards, i, f);
    var b := ConcatAt(shards, j, g);
    ConcatMonotone(shards, i + 1, j);
  }

  /** What the writer leaves behind is a well-formed base that means exactly the streamed files. */
  lemma {:induction false} WrittenIsBase(shards: seq<Segment>, los: seq<Path>)
    requires Written(shards, los) && (|shards| > 1 ==> shards[0] != [])
    ensures Base(shards, los)
  {
    forall k, l | 0 <= k < l < |los| ensures Less(los[k], los[l]) {
      ShardOrder(shards, k, 0, l, 0);
      if k == 0 { PrefixIsFirst("", shards[0][0].path); LessAtMost("", shards[0][0].path, los[l]); }
    }
    forall k: nat, f: nat | k < |shards| && f < |shards[k]| ensures InRange(los, k, shards[k][f].path) && !shards[k][f].deleted {
      var a := ConcatAt(shards, k, f);
      PrefixIsFirst("", shards[k][f].path);
      if k + 1 < |shards| { ShardOrder(shards, k, f, k + 1, 0); }
    }
  }

  /** What a writer holds between calls: shards and pending records of one ascending stream of live files. */
  ghost predicate Streamed(shards: seq<Segment>, los: seq<Path>, pending: seq<File>, prev: Path)
  {
    var all := Concat(shards) + pending;
    && Written(shards, los)
    && (shards != [] ==> shards[0] != [])
    && Sorted(all) && (forall f :: 0 <= f < |all| ==> !all[f].deleted)
    && (all != [] ==> prev == all[|all| - 1].path)
    && (all == [] ==> shards == [])
  }

  lemma {:induction false} AppendKeeps(shards: seq<Segment>, los: seq<Path>, pending: seq<File>, prev: Path, f: File)
    requires Streamed(shards, los, pending, prev) && !f.deleted
    requires forall r :: r in Concat(shards) + pending ==> Less(r.path, f.path)
    ensures Streamed(shards, los, pending + [f], f.path)
    ensures Concat(shards) + (pending + [f]) == Concat(shards) + pending + [f]
  {
    hide Less, Written, Concat;
    var all := Concat(shards) + pending;
    assert Concat(shards) + (pending + [f]) == all + [f];
    assert forall i :: 0 <= i < |all| ==> all[i] in all;
  }

  /** A path is past everything accepted exactly when nothing was accepted or it is past the last path. */
  lemma {:induction false} StreamEnds(shards: seq<Segment>, los: seq<Path>, pending: seq<File>, prev: Path, p: Path)
    requires Streamed(shards, los, pending, prev)
    ensures (forall r :: r in Concat(shards) + pending ==> Less(r.path, p)) <==> !(|shards| + |pending| > 0 && AtMost(p, prev))
  {
    hide Less, Written, AtMost;
    var all := Concat(shards) + pending;
    LastIsGreatest(all, p);
    assert shards == [] && pending == [] ==> all == [];
    assert pending != [] ==> all != [];
  }

  lemma {:induction false} SortedTail(a: seq<File>, b: seq<File>)
    requires Sorted(a + b)
    ensures Sorted(b)
  {
    hide Less;
    forall i, j | 0 <= i < j < |b| ensures Less(b[i].path, b[j].path) {
      assert (a + b)[|a| + i] == b[i] && (a + b)[|a| + j] == b[j];
    }
  }

  lemma {:induction false} WrittenMore(shards: seq<Segment>, los: seq<Path>, pending: Segment)
    requires Written(shards, los) && (pending != [] || shards == [])
    requires Sorted(Concat(shards) + pending) && forall f :: 0 <= f < |Concat(shards) + pending| ==> !(Concat(shards) + pending)[f].deleted
    ensures var more, bounds := shards + [pending], los + [if shards != [] then pending[0].path else ""];
      Written(more, bounds) && Concat(more) == Concat(shards) + pending
  {
    hide Less, Sorted;
    var more := shards + [pending];
    assert more[..|shards|] == shards;
    assert Concat(more) == Concat(shards) + pending;
  }

  lemma {:induction false} FlushKeeps(shards: seq<Segment>, los: seq<Path>, pending: seq<File>, prev: Path)
    requires Streamed(shards, los, pending, prev) && (pending != [] || shards == [])
    ensures Sorted(pending)
    ensures var more, bounds := shards + [pending], los + [if shards != [] then pending[0].path else ""];
      && Written(more, bounds) && Concat(more) == Concat(shards) + pending
      && (pending != [] ==> Streamed(more, bounds, [], prev))
  {
    hide Less, Sorted, Written, Concat;
    SortedTail(Concat(shards), pending);
    WrittenMore(shards, los, pending);
    var more: seq<Segment> := shards + [pending];
    assert Concat(more) + [] == Concat(more);
    assert pending != [] ==> more[0] != [];
  }

  class BaseWriter {
    const shardBytes: nat
    var pending: seq<File>
    var bytes: nat
    var prev: Path
    var shards: seq<Segment>
    var los: seq<Path>
    var done: bool

    /** Everything accepted so far, in order. */
    ghost function Accepted(): seq<File>
      reads this
    {
      Concat(shards) + pending
    }

    /** Every shard written so far fills the size target, and what is pending does not. */
    ghost predicate Sized()
      reads this
    {
      bytes == Bytes(pending) && AllFill(shards, shardBytes) && (pending != [] ==> bytes < shardBytes)
    }

    ghost predicate Valid()
      reads this
    {
      Sound() && (!done ==> Sized())
    }

    ghost predicate Sound()
      reads this
    {
      Streamed(shards, los, pending, prev)
    }

    constructor (shardBytes: nat)
      ensures Valid() && Accepted() == [] && !done && this.shardBytes == shardBytes
    {
      this.shardBytes := shardBytes;
      pending, bytes, prev, shards, los, done := [], 0, "", [], [], false;
    }

    /** Add: accepts a live file past the last one, skips tombstones, refuses anything out of order. */
    method Add(f: File) returns (ok: bool)
      requires Valid()
      modifies this
      ensures Valid() && done == old(done)
      ensures ok <==> f.deleted || forall r :: r in old(Accepted()) ==> Less(r.path, f.path)
      ensures Accepted() == if ok then old(Accepted()) + Live([f]) else old(Accepted())
    {
      hide Less, Written, Concat, Bytes, Fills, Streamed, Sorted, AllFill, AtMost, Live;
      LiveOne(f);
      if f.deleted {
        assert Accepted() + [] == Accepted();
        return true;
      }
      StreamEnds(shards, los, pending, prev, f.path);
      if |shards| + |pending| > 0 && AtMost(f.path, prev) {
        return false;
      }
      AppendKeeps(shards, los, pending, prev, f);
      BytesSnoc(pending, f);
      ghost var was := pending;
      prev := f.path;
      pending := pending + [f];
      bytes := bytes + f.bytes;
      if bytes >= shardBytes {
        FlushKeeps(shards, los, pending, prev);
        if !done { FillsNext(shards, was, f, shardBytes); }
        Flush();
      }
      ok := true;
    }

    /** flush: writes the pending files as the next shard. */
    method Flush()
      requires Sound() && (pending != [] || shards == [])
      modifies this`shards, this`los, this`pending, this`bytes
      ensures Written(shards, los) && Accepted() == old(Accepted()) && pending == [] && bytes == 0
      ensures shards == old(shards) + [old(pending)]
      ensures old(pending) != [] ==> Sound()
    {
      hide Less, Written, Concat, Streamed, Sorted;
      FlushKeeps(shards, los, pending, prev);
      var lo := if shards != [] then pending[0].path else "";
      shards := shards + [pending];
      los := los + [lo];
      pending, bytes := [], 0;
      assert Concat(shards) + [] == Concat(shards);
    }

    /** Commit: writes the last shard; the base means exactly what was accepted, cut where the size target is reached. */
    method Commit() returns (ok: bool)
      requires Valid()
      modifies this
      ensures ok == !old(done) && done
      ensures !ok ==> Accepted() == old(Accepted())
      ensures ok ==> Base(shards, los) && Meaning(shards) == Alone(old(Accepted())) && shards != []
      ensures ok ==> Concat(shards) == old(Accepted()) && (shards == [[]] || Cut(shards, shardBytes))
    {
      hide Less, Written, Concat, Bytes, Fills, Sorted, Base, Meaning, Overlay, AllFill, Cut;
      assert Concat(shards) + [] == Concat(shards);
      if done {
        return false;
      }
      if pending != [] || shards == [] {
        SortedTail(Concat(shards), pending);
        CutNext(shards, pending, shardBytes);
        Flush();
      } else {
        CutAll(shards, shardBytes);
      }
      assert Concat(shards) == old(Accepted());
      WrittenIsBase(shards, los);
      ConcatMeaning(shards);
      ok, done := true, true;
    }
  }

  /** Adding the record that reaches the target fills the next shard. */
  lemma {:induction false} FillsNext(shards: seq<Segment>, was: seq<File>, f: File, shardBytes: nat)
    requires AllFill(shards, shardBytes) && Bytes(was + [f]) >= shardBytes && (was != [] ==> Bytes(was) < shardBytes)
    requires Sorted(was + [f])
    ensures AllFill(shards + [was + [f]], shardBytes)
  {
    hide Bytes, Less;
    assert (was + [f])[..|was|] == was;
    assert Fills(was + [f], shardBytes);
  }

  lemma {:induction false} CutNext(shards: seq<Segment>, pending: seq<File>, shardBytes: nat)
    requires AllFill(shards, shardBytes) && Sorted(pending) && (pending != [] ==> Bytes(pending) < shardBytes)
    ensures pending != [] ==> Cut(shards + [pending], shardBytes)
  {
    hide Fills, Less;
    var segs: seq<Segment> := shards + [pending];
    forall i | 0 <= i < |segs| - 1 ensures Fills(segs[i], shardBytes) { assert segs[i] == shards[i]; }
  }

  lemma {:induction false} CutAll(shards: seq<Segment>, shardBytes: nat)
    requires AllFill(shards, shardBytes)
    ensures Cut(shards, shardBytes)
  {
    hide Bytes;
    if shards != [] { assert Fills(shards[|shards| - 1], shardBytes); }
  }

  /** Compaction cuts as streaming does: both give the one cut of the same records. */
  lemma {:induction false} OneCut(streamed: seq<Segment>, built: seq<Piece>, shardBytes: nat)
    requires Cut(streamed, shardBytes) && Cut(Segs(built), shardBytes) && Concat(streamed) == Concat(Segs(built))
    ensures Segs(built) == streamed
  {
    CutIsUnique(streamed, Segs(built), shardBytes);
  }

  lemma {:induction false} LiveOne(f: File)
    ensures Live([f]) == if f.deleted then [] else [f]
  {
    assert [f][..0] == [] && Live([]) == [];
  }

  /** A path is past every accepted file exactly when it is past the last one. */
  lemma {:induction false} LastIsGreatest(all: seq<File>, p: Path)
    requires Sorted(all)
    ensures all != [] ==> ((forall r :: r in all ==> Less(r.path, p)) <==> !AtMost(p, all[|all| - 1].path))
    ensures (forall r :: r in all ==> Less(r.path, p)) ==> forall f :: 0 <= f < |all| ==> Less(all[f].path, p)
  {
    if all != [] {
      var z := all[|all| - 1].path;
      Trichotomy(z, p);
      forall r | r in all && Less(z, p) ensures Less(r.path, p) {
        var i :| 0 <= i < |all| && all[i] == r;
        if i < |all| - 1 { Transitive(r.path, z, p); }
      }
      assert all[|all| - 1] in all;
    }
  }
}
