/**
 Claims about the workspace, each pinned to anchors and possibly derived from earlier claims, and their status as the
 anchored files change.
 */
module Claims {
  import opened Common
  import opened Decimals
  import A = Anchors

  datatype Status = Live | Stale | Doubted

  datatype Claim = Claim(id: string, text: string, anchors: seq<A.Anchor>, parents: seq<string>, evidence: string,
                         status: Status, reason: string)

  /** A stored claim; `own` is the reason one of its own anchors is invalid, or "". */
  datatype Entry = Entry(claim: Claim, own: string)

  datatype Input = Input(text: string, anchors: seq<A.Anchor>, parents: seq<string>, evidence: string)

  datatype Change = Change(id: string, was: Status, now: Status)

  datatype Result<+T> = Ok(value: T) | Err(error: Error)

  datatype Error =
    | BlankText | NoAnchors | BadPath(path: string) | Unreadable(path: string) | OutsideFile(path: string)
    | UnknownParent(id: string) | Duplicate(id: string) | Malformed(id: string) | NoHash(id: string)

  /** What the outside decides: how paths are normalized and how text is trimmed. */
  datatype World = World(norm: string -> Option<string>, trim: string -> string)

  type Files = map<string, A.Lines>

  /** The store's state: entries by id, ids in creation order, the last number given out. */
  datatype Book = Book(entries: map<string, Entry>, order: seq<string>, next: int)

  const EMPTY: Book := Book(map[], [], 0)

  function FileAt(files: Files, path: string): Option<A.Lines>
  {
    if path in files then Some(files[path]) else None
  }

  // ---------------------------------------------------------------------------------------------
  // Ids

  function IdOf(n: int): string { "c" + Decimal(n) }

  /** The number of an id; None when it is malformed. */
  function NumberOf(id: string): Option<int>
  {
    if id == [] || id[0] != 'c' then None else Atoi(id[1..])
  }

  lemma {:induction false} NumberOfId(n: int)
    requires MIN_INT <= n <= MAX_INT
    ensures NumberOf(IdOf(n)) == Some(n)
  {
    assert IdOf(n)[1..] == Decimal(n);
    AtoiOfDecimal(n);
  }

  /** The counter is a 64-bit number and wraps around. */
  function Successor(n: int): int
  {
    if n == MAX_INT then MIN_INT else n + 1
  }

  // ---------------------------------------------------------------------------------------------
  // Checking a claim's own anchors

  /** The text of "anchor ... changed". */
  function Describe(a: A.Anchor): (s: string)
    ensures s != ""
  {
    "anchor " + a.path
    + (if a.first > 0 then ":" + Decimal(a.first) + "-" + Decimal(a.last) else "")
    + (if a.symbol != "" then " " + a.symbol else "") + " changed"
  }

  /** The anchors after looking for the first i, and the first failure among them. */
  function Checked(anchors: seq<A.Anchor>, files: Files, i: nat): (r: (seq<A.Anchor>, string))
    requires i <= |anchors|
    ensures |r.0| == |anchors|
    ensures forall k :: i <= k < |anchors| ==> r.0[k] == anchors[k]
  {
    if i == 0 then (anchors, "")
    else
      var (moved, own) := Checked(anchors, files, i - 1);
      var a := anchors[i - 1];
      var (found, ok) := A.Located(FileAt(files, a.path), a);
      if ok then (moved[i - 1 := found], own)
      else (moved, if own == "" then Describe(a) else own)
  }

  /** Re-checking an entry's anchors. */
  function Recheck(e: Entry, files: Files): Entry
  {
    var (moved, own) := Checked(e.claim.anchors, files, |e.claim.anchors|);
    Entry(e.claim.(anchors := moved), own)
  }

  /** Some anchor's content is gone from its file. */
  ghost predicate Broken(anchors: seq<A.Anchor>, files: Files)
  {
    exists i :: 0 <= i < |anchors| && !A.Present(FileAt(files, anchors[i].path), anchors[i])
  }

  lemma {:induction false} CheckedFindsBroken(anchors: seq<A.Anchor>, files: Files, i: nat)
    requires i <= |anchors|
    ensures var (moved, own) := Checked(anchors, files, i);
      && (own != "" <==> Broken(anchors[..i], files))
      && forall k :: 0 <= k < |anchors| ==> A.SameTarget(moved[k], anchors[k]) && moved[k].symbol == anchors[k].symbol
  {
    if i > 0 {
      CheckedFindsBroken(anchors, files, i - 1);
      var front, a := anchors[..i - 1], anchors[i - 1];
      A.LocatedIsNearest(FileAt(files, a.path), a);
      assert anchors[..i] == front + [a];
      BrokenSnoc(front, a, files);
    }
  }

  lemma {:induction false} BrokenSnoc(front: seq<A.Anchor>, a: A.Anchor, files: Files)
    ensures Broken(front + [a], files) <==> Broken(front, files) || !A.Present(FileAt(files, a.path), a)
  {
    var all := front + [a];
    assert all[|front|] == a;
    if Broken(front, files) {
      var k :| 0 <= k < |front| && !A.Present(FileAt(files, front[k].path), front[k]);
      assert all[k] == front[k];
    }
    if Broken(all, files) {
      var k :| 0 <= k < |all| && !A.Present(FileAt(files, all[k].path), all[k]);
      assert k < |front| ==> front[k] == all[k];
    }
  }

  // ---------------------------------------------------------------------------------------------
  // Derived status

  function StatusName(s: Status): string
  {
    match s case Live => "live" case Stale => "stale" case Doubted => "doubted"
  }

  /** The first parent that is not live. */
  function FirstDoubt(parents: seq<string>, entries: map<string, Entry>): (r: Option<string>)
    requires forall p :: p in parents ==> p in entries
    ensures r.Some? ==> r.value in parents
  {
    if parents == [] then None
    else if entries[parents[0]].claim.status != Live then Some(parents[0])
    else FirstDoubt(parents[1..], entries)
  }

  /** applyDerived: the status and reason that follow from the entry's own anchors and its parents. */
  function Derived(e: Entry, entries: map<string, Entry>): Entry
    requires forall p :: p in e.claim.parents ==> p in entries
  {
    if e.own != "" then e.(claim := e.claim.(status := Stale, reason := e.own))
    else match FirstDoubt(e.claim.parents, entries)
      case Some(p) => e.(claim := e.claim.(status := Doubted,
                           reason := "derived from " + StatusName(entries[p].claim.status) + " claim " + p))
      case None => e.(claim := e.claim.(status := Live, reason := ""))
  }

  lemma {:induction false} FirstDoubtIsDoubt(parents: seq<string>, entries: map<string, Entry>)
    requires forall p :: p in parents ==> p in entries
    ensures FirstDoubt(parents, entries).None? <==> forall p :: p in parents ==> entries[p].claim.status == Live
  {
    if parents != [] {
      FirstDoubtIsDoubt(parents[1..], entries);
      assert forall p :: p in parents <==> p == parents[0] || p in parents[1..];
    }
  }

  lemma {:induction false} DoubtDependsOnParents(parents: seq<string>, a: map<string, Entry>, b: map<string, Entry>)
    requires forall p :: p in parents ==> p in a && p in b && a[p].claim.status == b[p].claim.status
    ensures FirstDoubt(parents, a) == FirstDoubt(parents, b)
  {
    if parents != [] { DoubtDependsOnParents(parents[1..], a, b); }
  }

  // ---------------------------------------------------------------------------------------------
  // Well-formed books

  ghost predicate Earlier(b: Book, i: nat)
  {
    i < |b.order| && b.order[i] in b.entries && forall p :: p in b.entries[b.order[i]].claim.parents ==> p in b.order[..i]
  }

  /** Ids are listed once, every claim is under its own id, and parents come before their children. */
  ghost predicate Ordered(b: Book)
  {
    && Distinct(b.order) && (forall id :: id in b.entries <==> id in b.order)
    && (forall id :: id in b.entries ==> b.entries[id].claim.id == id)
    && (forall i: nat :: i < |b.order| ==> Earlier(b, i))
  }

  /** Every status and reason follows from the claim's own anchors and its parents' statuses. */
  ghost predicate Settled(b: Book)
    requires Ordered(b)
  {
    forall id :: id in b.entries ==> ParentsKnown(b, id) && Derived(b.entries[id], b.entries) == b.entries[id]
  }

  ghost predicate ParentsKnown(b: Book, id: string)
    requires id in b.entries
  {
    forall p :: p in b.entries[id].claim.parents ==> p in b.entries
  }

  lemma {:induction false} OrderedKnowsParents(b: Book, id: string)
    requires Ordered(b) && id in b.entries
    ensures ParentsKnown(b, id)
  {
    var i :| 0 <= i < |b.order| && b.order[i] == id;
    assert Earlier(b, i);
  }

  /** Two books with the same claims but perhaps other anchors, reasons and statuses. */
  ghost predicate SameShape(a: Book, b: Book)
  {
    && a.order == b.order && a.next == b.next && a.entries.Keys == b.entries.Keys
    && forall id :: id in a.entries ==> SameClaim(a.entries[id].claim, b.entries[id].claim)
  }

  predicate SameClaim(a: Claim, b: Claim)
  {
    a.id == b.id && a.parents == b.parents && a.text == b.text && a.evidence == b.evidence
  }

  lemma {:induction false} ShapeKeepsOrder(a: Book, b: Book)
    requires Ordered(a) && SameShape(a, b)
    ensures Ordered(b)
  {
    forall i: nat | i < |b.order| ensures Earlier(b, i) {
      assert Earlier(a, i);
      assert SameClaim(a.entries[a.order[i]].claim, b.entries[b.order[i]].claim);
    }
    forall id | id in b.entries ensures b.entries[id].claim.id == id {
      assert SameClaim(a.entries[id].claim, b.entries[id].claim);
    }
    forall id ensures id in b.entries <==> id in b.order {
      assert id in a.entries <==> id in b.entries;
    }
  }

  // ---------------------------------------------------------------------------------------------
  // Refresh

  /** Which claims a refresh re-checks: all, or those with an anchor on one of some paths. */
  datatype Scope = Everything | Only(paths: set<string>)

  predicate InScope(scope: Scope, c: Claim)
  {
    scope.Everything? || exists i :: 0 <= i < |c.anchors| && c.anchors[i].path in scope.paths
  }

  function Rechecked(e: Entry, files: Files, scope: Scope): Entry
  {
    if InScope(scope, e.claim) then Recheck(e, files) else e
  }

  function RefreshOne(b: Book, files: Files, scope: Scope, id: string): (r: Book)
    requires Ordered(b) && id in b.entries
    ensures SameShape(b, r) && Ordered(r)
  {
    OrderedKnowsParents(b, id);
    var e := Rechecked(b.entries[id], files, scope);
    var r := b.(entries := b.entries[id := Derived(e, b.entries)]);
    ShapeKeepsOrder(b, r);
    r
  }

  /** The book after refreshing the first i claims. */
  function Refreshed(b: Book, files: Files, scope: Scope, i: nat): (r: Book)
    requires Ordered(b) && i <= |b.order|
    ensures SameShape(b, r) && Ordered(r)
  {
    if i == 0 then b else RefreshOne(Refreshed(b, files, scope, i - 1), files, scope, b.order[i - 1])
  }

  function FullyRefreshed(b: Book, files: Files, scope: Scope): (r: Book)
    requires Ordered(b)
    ensures SameShape(b, r) && Ordered(r)
  {
    Refreshed(b, files, scope, |b.order|)
  }

  lemma {:induction false} DerivedDependsOnParents(e: Entry, a: map<string, Entry>, b: map<string, Entry>)
    requires forall p :: p in e.claim.parents ==> p in a && p in b && a[p].claim.status == b[p].claim.status
    ensures Derived(e, a) == Derived(e, b)
  {
    DoubtDependsOnParents(e.claim.parents, a, b);
  }

  /** One ordered pass is a fixed point: each refreshed claim follows from its parents as the pass leaves them. */
  lemma {:induction false} RefreshedAt(b: Book, files: Files, scope: Scope, i: nat, j: nat)
    requires Ordered(b) && i <= |b.order| && j < |b.order|
    ensures var r := Refreshed(b, files, scope, i); var id := b.order[j];
      && (j >= i ==> r.entries[id] == b.entries[id])
      && (j < i ==> ParentsKnown(r, id) && r.entries[id] == Derived(Rechecked(b.entries[id], files, scope), r.entries))
  {
    hide Derived, Rechecked, SameShape, Ordered, Earlier;
    var r := Refreshed(b, files, scope, i);
    var id := b.order[j];
    if i > 0 {
      var m := Refreshed(b, files, scope, i - 1);
      var last := b.order[i - 1];
      RefreshedAt(b, files, scope, i - 1, j);
      Placed(b, r, j);
      Placed(b, m, j);
      OrderedKnowsParents(r, id);
      OrderedKnowsParents(m, id);
      if j >= i {
        NotYet(b, i - 1, j);
      } else {
        NotYet(b, j, i - 1);
        ParentsStand(b, m, j, last);
        RecheckKeepsClaim(b.entries[id], files, scope);
        DerivedDependsOnParents(Rechecked(b.entries[id], files, scope), m.entries, r.entries);
      }
    }
  }

  lemma {:induction false} Placed(b: Book, r: Book, j: nat)
    requires Ordered(b) && SameShape(b, r) && j < |b.order|
    ensures b.order == r.order && b.order[j] in b.entries && b.order[j] in r.entries
  {
    assert Earlier(b, j);
  }

  lemma {:induction false} RecheckKeepsClaim(e: Entry, files: Files, scope: Scope)
    ensures SameClaim(e.claim, Rechecked(e, files, scope).claim)
  {
  }

  /** A later claim is no parent of an earlier one. */
  lemma {:induction false} ParentsStand(b: Book, m: Book, j: nat, last: string)
    requires Ordered(b) && Ordered(m) && SameShape(b, m) && j < |b.order| && last !in b.order[..j]
    ensures forall p :: p in b.entries[b.order[j]].claim.parents ==> p in m.entries && p != last
  {
    assert Earlier(b, j);
    OrderedKnowsParents(m, b.order[j]);
    assert SameClaim(b.entries[b.order[j]].claim, m.entries[b.order[j]].claim);
  }

  lemma {:induction false} NotYet(b: Book, j: nat, i: nat)
    requires Ordered(b) && j <= i < |b.order|
    ensures b.order[i] !in b.order[..j]
    ensures j < i ==> b.order[j] != b.order[i]
  {
  }

  lemma {:induction false} IndexOf(b: Book, id: string) returns (i: nat)
    requires Ordered(b) && id in b.entries
    ensures i < |b.order| && b.order[i] == id
  {
    i :| 0 <= i < |b.order| && b.order[i] == id;
  }

  /** Refresh settles every status, whatever state it starts from. */
  lemma {:induction false} RefreshSettles(b: Book, files: Files, scope: Scope)
    requires Ordered(b)
    ensures Settled(FullyRefreshed(b, files, scope))
  {
    var r := FullyRefreshed(b, files, scope);
    forall id | id in r.entries ensures ParentsKnown(r, id) && Derived(r.entries[id], r.entries) == r.entries[id] {
      var i := IndexOf(b, id);
      RefreshedAt(b, files, scope, |b.order|, i);
      DerivedTwice(Rechecked(b.entries[id], files, scope), r.entries);
    }
  }

  lemma {:induction false} DerivedTwice(e: Entry, entries: map<string, Entry>)
    requires forall p :: p in e.claim.parents ==> p in entries
    ensures Derived(Derived(e, entries), entries) == Derived(e, entries)
  {
  }

  /**
   After Refresh a claim is stale exactly when, if it was re-checked, the content of one of its anchors is gone, and if it
   was not, it was invalid before. Its anchors look for what they looked for.
   */
  lemma {:induction false} RefreshJudges(b: Book, files: Files, scope: Scope, id: string)
    requires Ordered(b) && id in b.entries
    ensures var e, r := b.entries[id], FullyRefreshed(b, files, scope).entries[id];
      && (r.claim.status == Stale <==> r.own != "")
      && (r.own != "" <==> if InScope(scope, e.claim) then Broken(e.claim.anchors, files) else e.own != "")
      && SameTargets(e.claim.anchors, r.claim.anchors)
  {
    hide Checked, Broken, FirstDoubt, Ordered, Refreshed, SameShape;
    var i := IndexOf(b, id);
    RefreshedAt(b, files, scope, |b.order|, i);
    var anchors := b.entries[id].claim.anchors;
    RecheckJudges(b.entries[id], files);
    forall k | 0 <= k < |anchors| ensures A.SameTarget(anchors[k], anchors[k]) {}
  }

  lemma {:induction false} RecheckJudges(e: Entry, files: Files)
    ensures var r := Recheck(e, files);
      (r.own != "" <==> Broken(e.claim.anchors, files)) && SameTargets(e.claim.anchors, r.claim.anchors)
  {
    var anchors := e.claim.anchors;
    CheckedFindsBroken(anchors, files, |anchors|);
    assert anchors[..|anchors|] == anchors;
    var moved := Checked(anchors, files, |anchors|).0;
    forall k | 0 <= k < |anchors| ensures A.SameTarget(anchors[k], moved[k]) {
      assert A.SameTarget(moved[k], anchors[k]);
    }
  }

  ghost predicate SameTargets(a: seq<A.Anchor>, b: seq<A.Anchor>)
  {
    |a| == |b| && forall i :: 0 <= i < |a| ==> A.SameTarget(a[i], b[i])
  }

  // ---------------------------------------------------------------------------------------------
  // Live means no stale ancestor

  /** Each claim of the chain is a parent of the one before it. */
  ghost predicate Lineage(b: Book, chain: seq<string>)
  {
    && chain != [] && (forall i :: 0 <= i < |chain| ==> chain[i] in b.entries)
    && forall i :: 0 <= i < |chain| - 1 ==> chain[i + 1] in b.entries[chain[i]].claim.parents
  }

  lemma {:induction false} LiveHasSoundAncestors(b: Book, chain: seq<string>)
    requires Ordered(b) && Settled(b) && Lineage(b, chain) && b.entries[chain[0]].claim.status == Live
    ensures b.entries[chain[|chain| - 1]].own == ""
  {
    var e := b.entries[chain[0]];
    assert Derived(e, b.entries) == e;
    FirstDoubtIsDoubt(e.claim.parents, b.entries);
    if |chain| > 1 {
      assert chain[0 + 1] in e.claim.parents;
      LiveHasSoundAncestors(b, chain[1..]);
    }
  }

  lemma {:induction false} DeadHasStaleAncestor(b: Book, i: nat) returns (chain: seq<string>)
    requires Ordered(b) && Settled(b) && i < |b.order| && b.entries[b.order[i]].claim.status != Live
    ensures Lineage(b, chain) && chain[0] == b.order[i] && b.entries[chain[|chain| - 1]].own != ""
    decreases i
  {
    var id := b.order[i];
    var e := b.entries[id];
    assert Derived(e, b.entries) == e;
    if e.own != "" {
      chain := [id];
    } else {
      FirstDoubtIsDoubt(e.claim.parents, b.entries);
      var p := FirstDoubt(e.claim.parents, b.entries).value;
      assert Earlier(b, i);
      var j :| 0 <= j < i && b.order[j] == p;
      FirstDoubtIsDead(e.claim.parents, b.entries);
      var rest := DeadHasStaleAncestor(b, j);
      chain := [id] + rest;
      forall k | 0 <= k < |chain| - 1 ensures chain[k + 1] in b.entries[chain[k]].claim.parents {
        if k > 0 { assert chain[k] == rest[k - 1] && chain[k + 1] == rest[(k - 1) + 1]; }
      }
    }
  }

  lemma {:induction false} FirstDoubtIsDead(parents: seq<string>, entries: map<string, Entry>)
    requires forall p :: p in parents ==> p in entries
    ensures FirstDoubt(parents, entries).Some? ==> entries[FirstDoubt(parents, entries).value].claim.status != Live
  {
    if parents != [] { FirstDoubtIsDead(parents[1..], entries); }
  }

  /** A claim is live exactly when neither it nor any ancestor has an invalid anchor. */
  lemma {:induction false} LiveIffNoStaleAncestor(b: Book, id: string)
    requires Ordered(b) && Settled(b) && id in b.entries
    ensures b.entries[id].claim.status == Live <==>
      forall chain :: Lineage(b, chain) && chain[0] == id ==> b.entries[chain[|chain| - 1]].own == ""
  {
    if b.entries[id].claim.status == Live {
      forall chain | Lineage(b, chain) && chain[0] == id ensures b.entries[chain[|chain| - 1]].own == "" {
        LiveHasSoundAncestors(b, chain);
      }
    } else {
      var i := IndexOf(b, id);
      var chain := DeadHasStaleAncestor(b, i);
      assert Lineage(b, chain) && chain[0] == id && b.entries[chain[|chain| - 1]].own != "";
    }
  }

  // ---------------------------------------------------------------------------------------------
  // Statuses do not depend on the history

  /** The same claims looking for the same content. */
  ghost predicate SameSubject(a: Book, b: Book)
  {
    && SameShape(a, b)
    && forall id :: id in a.entries ==> SameTargets(a.entries[id].claim.anchors, b.entries[id].claim.anchors)
  }

  ghost predicate SameStatuses(a: Book, b: Book)
  {
    a.entries.Keys == b.entries.Keys && forall id :: id in a.entries ==> a.entries[id].claim.status == b.entries[id].claim.status
  }

  ghost predicate SameFaults(a: Book, b: Book)
  {
    a.entries.Keys == b.entries.Keys && forall id :: id in a.entries ==> (a.entries[id].own == "" <==> b.entries[id].own == "")
  }

  /** Settled statuses follow from which claims have an invalid anchor. */
  lemma {:induction false} FaultsDecide(a: Book, b: Book)
    requires Ordered(a) && Ordered(b) && Settled(a) && Settled(b) && SameShape(a, b) && SameFaults(a, b)
    ensures SameStatuses(a, b)
  {
    forall id | id in a.entries ensures a.entries[id].claim.status == b.entries[id].claim.status {
      var i := IndexOf(a, id);
      FaultsDecideAt(a, b, i);
    }
  }

  lemma {:induction false} FaultsDecideAt(a: Book, b: Book, i: nat)
    requires Ordered(a) && Ordered(b) && Settled(a) && Settled(b) && SameShape(a, b) && SameFaults(a, b) && i < |a.order|
    ensures a.entries[a.order[i]].claim.status == b.entries[a.order[i]].claim.status
    decreases i
  {
    var id := a.order[i];
    assert Derived(a.entries[id], a.entries) == a.entries[id] && Derived(b.entries[id], b.entries) == b.entries[id];
    assert Earlier(a, i) && ParentsKnown(a, id) && ParentsKnown(b, id);
    forall p | p in a.entries[id].claim.parents ensures a.entries[p].claim.status == b.entries[p].claim.status {
      var j :| 0 <= j < i && a.order[j] == p;
      FaultsDecideAt(a, b, j);
    }
    DoubtDependsOnParents(a.entries[id].claim.parents, a.entries, b.entries);
  }

  lemma {:induction false} SameTargetsBreakTogether(a: seq<A.Anchor>, b: seq<A.Anchor>, files: Files)
    requires SameTargets(a, b)
    ensures Broken(a, files) <==> Broken(b, files)
  {
    forall i | 0 <= i < |a|
      ensures A.Present(FileAt(files, a[i].path), a[i]) <==> A.Present(FileAt(files, b[i].path), b[i])
    {
      assert A.SameTarget(a[i], b[i]);
      A.PresenceIgnoresPosition(FileAt(files, a[i].path), a[i], b[i]);
    }
    if Broken(a, files) {
      var i :| 0 <= i < |a| && !A.Present(FileAt(files, a[i].path), a[i]);
      assert !A.Present(FileAt(files, b[i].path), b[i]);
    }
    if Broken(b, files) {
      var i :| 0 <= i < |b| && !A.Present(FileAt(files, b[i].path), b[i]);
      assert !A.Present(FileAt(files, a[i].path), a[i]);
    }
  }

  /** A full refresh gives statuses that depend only on the claims and on the files now. */
  lemma {:induction false} FullRefreshForgetsHistory(a: Book, b: Book, files: Files)
    requires Ordered(a) && Ordered(b) && SameSubject(a, b)
    ensures SameStatuses(FullyRefreshed(a, files, Everything), FullyRefreshed(b, files, Everything))
  {
    var x, y := FullyRefreshed(a, files, Everything), FullyRefreshed(b, files, Everything);
    forall id | id in x.entries ensures x.entries[id].own == "" <==> y.entries[id].own == "" {
      RefreshJudges(a, files, Everything, id);
      RefreshJudges(b, files, Everything, id);
      SameTargetsBreakTogether(a.entries[id].claim.anchors, b.entries[id].claim.anchors, files);
    }
    RefreshSettles(a, files, Everything);
    RefreshSettles(b, files, Everything);
    FaultsDecide(x, y);
  }

  lemma {:induction false} RefreshKeepsSubject(b: Book, files: Files, scope: Scope)
    requires Ordered(b)
    ensures SameSubject(b, FullyRefreshed(b, files, scope))
  {
    forall id | id in b.entries
      ensures SameTargets(b.entries[id].claim.anchors, FullyRefreshed(b, files, scope).entries[id].claim.anchors)
    {
      RefreshJudges(b, files, scope, id);
    }
  }

  /** Any number of refreshes, each of some paths against the files of its moment. */
  function History(b: Book, edits: seq<(Files, Scope)>): (r: Book)
    requires Ordered(b)
    ensures SameShape(b, r) && Ordered(r)
  {
    if edits == [] then b
    else
      var n := |edits| - 1;
      FullyRefreshed(History(b, edits[..n]), edits[n].0, edits[n].1)
  }

  lemma {:induction false} HistoryKeepsSubject(b: Book, edits: seq<(Files, Scope)>)
    requires Ordered(b)
    ensures SameSubject(b, History(b, edits))
  {
    if edits != [] {
      var n := |edits| - 1;
      var m := History(b, edits[..n]);
      HistoryKeepsSubject(b, edits[..n]);
      RefreshKeepsSubject(m, edits[n].0, edits[n].1);
      forall id | id in b.entries
        ensures SameTargets(b.entries[id].claim.anchors, History(b, edits).entries[id].claim.anchors)
      {
        TargetsChain(b.entries[id].claim.anchors, m.entries[id].claim.anchors, History(b, edits).entries[id].claim.anchors);
      }
    } else {
      forall id | id in b.entries ensures SameTargets(b.entries[id].claim.anchors, b.entries[id].claim.anchors) {}
    }
  }

  lemma {:induction false} TargetsChain(a: seq<A.Anchor>, b: seq<A.Anchor>, c: seq<A.Anchor>)
    requires SameTargets(a, b) && SameTargets(b, c)
    ensures SameTargets(a, c)
  {
    forall i | 0 <= i < |a| ensures A.SameTarget(a[i], c[i]) {
      assert A.SameTarget(a[i], b[i]) && A.SameTarget(b[i], c[i]);
    }
  }

  /** A full refresh after any history of edits and refreshes gives the statuses it would have given at once. */
  lemma {:induction false} HistoryDoesNotMatter(b: Book, edits: seq<(Files, Scope)>, files: Files)
    requires Ordered(b)
    ensures SameStatuses(FullyRefreshed(History(b, edits), files, Everything), FullyRefreshed(b, files, Everything))
  {
    HistoryKeepsSubject(b, edits);
    FullRefreshForgetsHistory(b, History(b, edits), files);
  }

  // ---------------------------------------------------------------------------------------------
  // Refreshing only the changed paths

  /** Every claim's own validity is what the files now say. */
  ghost predicate Current(b: Book, files: Files)
  {
    forall id :: id in b.entries ==> (b.entries[id].own != "" <==> Broken(b.entries[id].claim.anchors, files))
  }

  lemma {:induction false} FullRefreshIsCurrent(b: Book, files: Files)
    requires Ordered(b)
    ensures Current(FullyRefreshed(b, files, Everything), files)
  {
    var r := FullyRefreshed(b, files, Everything);
    forall id | id in r.entries ensures r.entries[id].own != "" <==> Broken(r.entries[id].claim.anchors, files) {
      RefreshJudges(b, files, Everything, id);
      SameTargetsBreakTogether(b.entries[id].claim.anchors, r.entries[id].claim.anchors, files);
    }
  }

  /** If the book was current and only the given paths changed, refreshing them does what refreshing everything does. */
  lemma {:induction false} ChangedPathsSuffice(b: Book, was: Files, now: Files, paths: set<string>)
    requires Ordered(b) && Current(b, was)
    requires forall p :: p !in paths ==> FileAt(was, p) == FileAt(now, p)
    ensures SameStatuses(FullyRefreshed(b, now, Only(paths)), FullyRefreshed(b, now, Everything))
    ensures Current(FullyRefreshed(b, now, Only(paths)), now)
  {
    var x, y := FullyRefreshed(b, now, Only(paths)), FullyRefreshed(b, now, Everything);
    forall id | id in x.entries
      ensures x.entries[id].own == "" <==> y.entries[id].own == ""
      ensures x.entries[id].own != "" <==> Broken(x.entries[id].claim.anchors, now)
    {
      var c := b.entries[id].claim;
      RefreshJudges(b, now, Only(paths), id);
      RefreshJudges(b, now, Everything, id);
      if !InScope(Only(paths), c) { UnchangedStaysBroken(c.anchors, was, now, paths); }
      SameTargetsBreakTogether(c.anchors, x.entries[id].claim.anchors, now);
    }
    RefreshSettles(b, now, Only(paths));
    RefreshSettles(b, now, Everything);
    FaultsDecide(x, y);
  }

  lemma {:induction false} UnchangedStaysBroken(anchors: seq<A.Anchor>, was: Files, now: Files, paths: set<string>)
    requires forall p :: p !in paths ==> FileAt(was, p) == FileAt(now, p)
    requires forall i :: 0 <= i < |anchors| ==> anchors[i].path !in paths
    ensures Broken(anchors, was) <==> Broken(anchors, now)
  {
    forall i | 0 <= i < |anchors| ensures FileAt(was, anchors[i].path) == FileAt(now, anchors[i].path) {}
    if Broken(anchors, was) {
      var i :| 0 <= i < |anchors| && !A.Present(FileAt(was, anchors[i].path), anchors[i]);
      assert !A.Present(FileAt(now, anchors[i].path), anchors[i]);
    }
    if Broken(anchors, now) {
      var i :| 0 <= i < |anchors| && !A.Present(FileAt(now, anchors[i].path), anchors[i]);
      assert !A.Present(FileAt(was, anchors[i].path), anchors[i]);
    }
  }

  /** The files after a sequence of edits. */
  function LastFiles(files: Files, edits: seq<(Files, Scope)>): Files
  {
    if edits == [] then files else edits[|edits| - 1].0
  }

  /** Every refresh names all paths that changed since the one before, or re-checks everything. */
  ghost predicate NamesChanges(files: Files, edits: seq<(Files, Scope)>)
  {
    edits == [] ||
    var n := |edits| - 1;
    && NamesChanges(files, edits[..n])
    && (edits[n].1.Only? ==> forall p :: p !in edits[n].1.paths ==> FileAt(LastFiles(files, edits[..n]), p) == FileAt(edits[n].0, p))
  }

  /**
   After one full refresh, any number of refreshes that each name the paths changed since the one before keep every status
   what a full refresh would make it.
   */
  lemma {:induction false} NamedChangesSuffice(b: Book, files: Files, edits: seq<(Files, Scope)>)
    requires Ordered(b) && NamesChanges(files, edits)
    ensures var start, last := FullyRefreshed(b, files, Everything), LastFiles(files, edits);
      && Current(History(start, edits), last)
      && SameStatuses(History(start, edits), FullyRefreshed(b, last, Everything))
  {
    hide Ordered, SameShape, NamesChanges, Current, SameStatuses, SameSubject;
    var start, n := FullyRefreshed(b, files, Everything), |edits| - 1;
    if edits == [] {
      FullRefreshIsCurrent(b, files);
      StatusesChain(start, start, start);
    } else {
      var mid, now := History(start, edits[..n]), edits[n].0;
      NamesChangesBefore(files, edits);
      NamedChangesSuffice(b, files, edits[..n]);
      if edits[n].1.Only? {
        ChangedPathsSuffice(mid, LastFiles(files, edits[..n]), now, edits[n].1.paths);
      } else {
        FullRefreshIsCurrent(mid, now);
        StatusesChain(History(start, edits), History(start, edits), History(start, edits));
      }
      HistoryDoesNotMatter(start, edits[..n], now);
      RefreshKeepsSubject(b, files, Everything);
      FullRefreshForgetsHistory(b, start, now);
      var x, y := FullyRefreshed(mid, now, Everything), FullyRefreshed(start, now, Everything);
      StatusesChain(History(start, edits), x, y);
      StatusesChain(History(start, edits), y, FullyRefreshed(b, now, Everything));
    }
  }

  lemma {:induction false} NamesChangesBefore(files: Files, edits: seq<(Files, Scope)>)
    requires NamesChanges(files, edits) && edits != []
    ensures var n := |edits| - 1;
      && NamesChanges(files, edits[..n])
      && (edits[n].1.Only? ==> forall p :: p !in edits[n].1.paths ==> FileAt(LastFiles(files, edits[..n]), p) == FileAt(edits[n].0, p))
  {
  }

  lemma {:induction false} StatusesChain(a: Book, b: Book, c: Book)
    ensures SameStatuses(a, a)
    ensures SameStatuses(a, b) ==> SameStatuses(b, a)
    ensures SameStatuses(a, b) && (SameStatuses(b, c) || SameStatuses(c, b)) ==> SameStatuses(a, c)
  {
  }
}
