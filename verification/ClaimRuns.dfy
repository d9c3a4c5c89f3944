/**
 Whole runs of a claim store: any sequence of additions, refreshes and restores, remembering for each claim what its last
 check found.
 */
module ClaimRuns {
  import opened Common
  import opened Decimals
  import opened Claims
  import opened ClaimStore
  import A = Anchors

  datatype Event = Adding(input: Input, files: Files) | Refreshing(scope: Scope, files: Files) | Restoring(saved: seq<Claim>)

  /** The store, and for each claim whether an anchor failed at its last check (for a restored claim, what was saved of it). */
  datatype Memory = Memory(book: Book, failed: map<string, bool>)

  const START: Memory := Memory(EMPTY, map[])

  /** An addition gives out an id that is not in use, as it does until the counter wraps. */
  ghost predicate Enabled(m: Memory, e: Event)
  {
    e.Adding? ==> IdOf(Successor(m.book.next)) !in m.book.entries
  }

  ghost predicate SavedStale(saved: seq<Claim>, id: string)
  {
    exists i :: 0 <= i < |saved| && saved[i].id == id && saved[i].status == Stale
  }

  /** One event; an addition or a restore that fails changes nothing. */
  ghost function After(m: Memory, world: World, e: Event): Memory
    requires Told(m, world)
  {
    match e
    case Adding(input, files) =>
      (match Added(m.book, input, files, world)
       case Err(_) => m
       case Ok(b) => Memory(b, m.failed[IdOf(b.next) := false]))
    case Refreshing(scope, files) =>
      Memory(FullyRefreshed(m.book, files, scope),
             map id | id in m.book.entries ::
               if InScope(scope, m.book.entries[id].claim) then Broken(m.book.entries[id].claim.anchors, files) else m.failed[id])
    case Restoring(saved) =>
      (match Restored(saved, world)
       case Err(_) => m
       case Ok(b) => Memory(b, map id | id in b.entries :: SavedStale(saved, id)))
  }

  /** The store is well-formed, and exactly the claims whose last check failed have an invalid anchor of their own. */
  ghost predicate Told(m: Memory, world: World)
  {
    && Good(m.book, world) && m.failed.Keys == m.book.entries.Keys
    && forall id :: id in m.book.entries ==> (m.book.entries[id].own != "" <==> m.failed[id])
  }

  lemma {:induction false} RestoredOwn(saved: seq<Claim>, world: World, id: string)
    requires Restored(saved, world).Ok?
    ensures var b := Restored(saved, world).value;
      && (id in b.entries ==> (b.entries[id].own != "" <==> SavedStale(saved, id)))
      && (id !in b.entries ==> !SavedStale(saved, id))
  {
    hide RestoredOne, SavedStale;
    if saved == [] {
      NoneSaved(id);
    } else {
      var n := |saved| - 1;
      RestoredOwn(saved[..n], world, id);
      RestoredOneOwn(Restored(saved[..n], world).value, saved[n], world, id);
      SavedStaleSnoc(saved, id);
    }
  }

  lemma {:induction false} NoneSaved(id: string)
    ensures !SavedStale([], id)
  {
  }

  lemma {:induction false} SavedStaleSnoc(saved: seq<Claim>, id: string)
    requires saved != []
    ensures var n := |saved| - 1;
      SavedStale(saved, id) <==> SavedStale(saved[..n], id) || (saved[n].id == id && saved[n].status == Stale)
  {
    var front := saved[..|saved| - 1];
    if SavedStale(front, id) {
      var i :| 0 <= i < |front| && front[i].id == id && front[i].status == Stale;
      assert saved[i] == front[i];
    }
  }

  lemma {:induction false} RestoredOneOwn(b: Book, c: Claim, world: World, id: string)
    requires RestoredOne(b, c, world).Ok?
    ensures var r := RestoredOne(b, c, world).value;
      && r.entries.Keys == b.entries.Keys + {c.id} && c.id !in b.entries
      && (id in b.entries ==> r.entries[id] == b.entries[id])
      && (r.entries[c.id].own != "" <==> c.status == Stale)
  {
    hide NumberOf, FirstDoubt, RestoredAnchors, Appended, FirstUnknown;
    var anchors := RestoredAnchors(c.anchors, c.id, world).value;
    var own := if c.status != Stale then "" else if c.reason == "" then "anchor changed" else c.reason;
    var e, n := Entry(c.(anchors := anchors), own), NumberOf(c.id).value;
    AppendedNew(b, e, if n > b.next then n else b.next);
  }

  lemma {:induction false} AddingTells(m: Memory, world: World, input: Input, files: Files)
    requires Told(m, world) && Sane(world) && Enabled(m, Adding(input, files))
    ensures Told(After(m, world, Adding(input, files)), world)
  {
    hide Good, Broken, Added;
    AddIsGood(m.book, input, files, world);
  }

  lemma {:induction false} RefreshingTells(m: Memory, world: World, scope: Scope, files: Files)
    requires Told(m, world)
    ensures Told(After(m, world, Refreshing(scope, files)), world)
  {
    hide Good, Broken, InScope, FullyRefreshed;
    RefreshIsGood(m.book, files, scope, world);
    assert Ordered(m.book) by { GoodIsOrdered(m.book, world); }
    var r := FullyRefreshed(m.book, files, scope);
    forall id | id in m.book.entries
      ensures r.entries[id].own != "" <==>
        if InScope(scope, m.book.entries[id].claim) then Broken(m.book.entries[id].claim.anchors, files) else m.failed[id]
    {
      RefreshJudges(m.book, files, scope, id);
    }
  }

  lemma {:induction false} RestoringTells(m: Memory, world: World, saved: seq<Claim>)
    requires Told(m, world) && Sane(world)
    ensures Told(After(m, world, Restoring(saved)), world)
  {
    hide Good, Restored, SavedStale;
    RestoreIsGood(saved, world);
    if Restored(saved, world).Ok? {
      var b := Restored(saved, world).value;
      forall id | id in b.entries ensures b.entries[id].own != "" <==> SavedStale(saved, id) { RestoredOwn(saved, world, id); }
    }
  }

  /** Every event keeps the store well-formed and its claims as their last checks found them. */
  lemma {:induction false} EventTells(m: Memory, world: World, e: Event)
    requires Told(m, world) && Sane(world) && Enabled(m, e)
    ensures Told(After(m, world, e), world)
  {
    hide Told, After;
    match e
    case Adding(input, files) => AddingTells(m, world, input, files);
    case Refreshing(scope, files) => RefreshingTells(m, world, scope, files);
    case Restoring(saved) => RestoringTells(m, world, saved);
  }

  /** The memory after a run. */
  ghost predicate Runs(m: Memory, world: World, events: seq<Event>)
    decreases |events|
  {
    events == [] || (Told(m, world) && Enabled(m, events[0]) && Runs(After(m, world, events[0]), world, events[1..]))
  }

  ghost function Final(m: Memory, world: World, events: seq<Event>): Memory
    requires Runs(m, world, events)
    decreases |events|
  {
    if events == [] then m else Final(After(m, world, events[0]), world, events[1..])
  }

  lemma {:induction false} RunTells(m: Memory, world: World, events: seq<Event>)
    requires Told(m, world) && Sane(world) && Runs(m, world, events)
    ensures Told(Final(m, world, events), world)
    decreases |events|
  {
    hide Told;
    if events != [] {
      EventTells(m, world, events[0]);
      RunTells(After(m, world, events[0]), world, events[1..]);
    }
  }

  /**
   After any run of additions, refreshes and restores: a claim is stale exactly when one of its own anchors failed at its last
   check, and live exactly when that holds of neither it nor any ancestor.
   */
  lemma {:induction false} RunIsTruthful(world: World, events: seq<Event>, id: string)
    requires Sane(world) && Runs(START, world, events) && id in Final(START, world, events).book.entries
    ensures var m := Final(START, world, events);
      && Told(m, world)
      && (m.book.entries[id].claim.status == Stale <==> m.failed[id])
      && (m.book.entries[id].claim.status == Live <==>
            forall chain :: Lineage(m.book, chain) && chain[0] == id ==> !m.failed[chain[|chain| - 1]])
  {
    hide Runs, Final, Good, FirstDoubt;
    EmptyIsGood(world);
    RunTells(START, world, events);
    var m := Final(START, world, events);
    assert Ordered(m.book) && Settled(m.book) by { GoodIsSettled(m.book, world); }
    var e := m.book.entries[id];
    assert ParentsKnown(m.book, id) && Derived(e, m.book.entries) == e;
    LiveIffNoStaleAncestor(m.book, id);
    forall chain | Lineage(m.book, chain)
      ensures m.book.entries[chain[|chain| - 1]].own == "" <==> !m.failed[chain[|chain| - 1]]
    {
      assert chain[|chain| - 1] in m.book.entries;
    }
  }

  lemma {:induction false} GoodIsSettled(b: Book, world: World)
    requires Good(b, world)
    ensures Ordered(b) && Settled(b)
  {
  }

  /** Listing the claims and restoring them changes nothing, verdicts included, until the id counter wraps. */
  lemma {:induction false} RestartChangesNothing(m: Memory, world: World)
    requires Told(m, world) && !Wrapped(m.book)
    ensures After(m, world, Restoring(Listed(m.book))) == m
  {
    hide Restored, SavedStale, Listed, Good, Wrapped;
    assert Ordered(m.book) by { GoodIsOrdered(m.book, world); }
    RestoreOfList(m.book, world);
    var saved := Listed(m.book);
    assert Restored(saved, world) == Ok(m.book);
    forall id | id in m.book.entries ensures SavedStale(saved, id) <==> m.failed[id] { RestoredOwn(saved, world, id); }
    assert (map id | id in m.book.entries :: SavedStale(saved, id)) == m.failed;
  }

  // ---------------------------------------------------------------------------------------------
  // A full refresh depends only on what was added and restored

  /** The events that are no refreshes. */
  function WithoutRefreshes(events: seq<Event>): seq<Event>
  {
    if events == [] then []
    else (if events[0].Refreshing? then [] else [events[0]]) + WithoutRefreshes(events[1..])
  }

  lemma {:induction false} ParentsDependOnKeys(ids: seq<string>, a: map<string, Entry>, b: map<string, Entry>)
    requires a.Keys == b.Keys
    ensures Parents(ids, a) == Parents(ids, b)
  {
    if ids != [] {
      ParentsDependOnKeys(ids[..|ids| - 1], a, b);
      assert ids[|ids| - 1] in a.Keys <==> ids[|ids| - 1] in b.Keys;
    }
  }

  lemma {:induction false} AddKeepsSubject(a: Book, b: Book, input: Input, files: Files, world: World)
    requires SameSubject(a, b) && IdOf(Successor(a.next)) !in a.entries
    ensures match Added(a, input, files, world)
      case Err(_) => Added(b, input, files, world).Err?
      case Ok(r) => Added(b, input, files, world).Ok? && SameSubject(r, Added(b, input, files, world).value)
  {
    hide Hashed, IdOf, Appended, SameTargets;
    ParentsDependOnKeys(input.parents, a.entries, b.entries);
    ParentsAreKnown(input.parents, a.entries);
    ParentsAreKnown(input.parents, b.entries);
    if Added(a, input, files, world).Ok? {
      var next := Successor(a.next);
      var anchors, parents := Hashed(input.anchors, files, world).value, Parents(input.parents, a.entries).value;
      AppendKeepsSubject(a, b, Entry(Claim(IdOf(next), world.trim(input.text), anchors, parents, input.evidence, Live, ""), ""), next);
    }
  }

  lemma {:induction false} AppendKeepsSubject(a: Book, b: Book, e: Entry, next: int)
    requires SameSubject(a, b) && e.claim.id !in a.entries && forall p :: p in e.claim.parents ==> p in a.entries
    ensures forall p :: p in e.claim.parents ==> p in b.entries
    ensures SameSubject(Appended(a, e, next), Appended(b, e, next))
  {
    hide FirstDoubt, Appended, SameTargets;
    assert a.entries.Keys == b.entries.Keys;
    assert forall p :: p in e.claim.parents ==> p in a.entries.Keys;
    AppendedNew(a, e, next);
    AppendedNew(b, e, next);
    TargetsOfItself(e.claim.anchors);
  }

  lemma {:induction false} TargetsOfItself(a: seq<A.Anchor>)
    ensures SameTargets(a, a)
  {
    forall i | 0 <= i < |a| ensures A.SameTarget(a[i], a[i]) {}
  }

  lemma {:induction false} SubjectsChain(a: Book, b: Book, c: Book)
    requires SameSubject(a, b)
    ensures SameSubject(b, a)
    ensures SameSubject(b, c) ==> SameSubject(a, c)
    ensures SameSubject(a, c) ==> SameSubject(b, c)
  {
    assert a.entries.Keys == b.entries.Keys;
    forall id | id in b.entries ensures SameTargets(b.entries[id].claim.anchors, a.entries[id].claim.anchors) {
      TargetsTurn(a.entries[id].claim.anchors, b.entries[id].claim.anchors);
    }
    if SameSubject(b, c) {
      forall id | id in a.entries ensures SameTargets(a.entries[id].claim.anchors, c.entries[id].claim.anchors) {
        TargetsChain(a.entries[id].claim.anchors, b.entries[id].claim.anchors, c.entries[id].claim.anchors);
      }
    }
    if SameSubject(a, c) {
      forall id | id in b.entries ensures SameTargets(b.entries[id].claim.anchors, c.entries[id].claim.anchors) {
        TargetsChain(b.entries[id].claim.anchors, a.entries[id].claim.anchors, c.entries[id].claim.anchors);
      }
    }
  }

  lemma {:induction false} TargetsTurn(a: seq<A.Anchor>, b: seq<A.Anchor>)
    requires SameTargets(a, b)
    ensures SameTargets(b, a)
  {
    forall i | 0 <= i < |a| ensures A.SameTarget(b[i], a[i]) { assert A.SameTarget(a[i], b[i]); }
  }

  lemma {:induction false} SameItself(b: Book)
    ensures SameSubject(b, b)
  {
    forall id | id in b.entries ensures SameTargets(b.entries[id].claim.anchors, b.entries[id].claim.anchors) {
      TargetsOfItself(b.entries[id].claim.anchors);
    }
  }

  lemma {:induction false} EventKeepsSubject(m: Memory, w: Memory, world: World, e: Event)
    requires Told(m, world) && Told(w, world) && SameSubject(m.book, w.book) && Enabled(m, e)
    ensures Enabled(w, e)
    ensures e.Refreshing? ==> SameSubject(After(m, world, e).book, w.book)
    ensures !e.Refreshing? ==> SameSubject(After(m, world, e).book, After(w, world, e).book)
  {
    hide Good, Broken, InScope, Added, Restored, FullyRefreshed, SavedStale, SameTargets;
    assert Ordered(m.book) && Ordered(w.book) by { GoodIsOrdered(m.book, world); GoodIsOrdered(w.book, world); }
    match e
    case Adding(input, files) => AddKeepsSubject(m.book, w.book, input, files, world);
    case Refreshing(scope, files) =>
      RefreshKeepsSubject(m.book, files, scope);
      SubjectsChain(m.book, FullyRefreshed(m.book, files, scope), w.book);
    case Restoring(saved) =>
      if Restored(saved, world).Ok? { SameItself(Restored(saved, world).value); }
  }

  /** A run goes the same way without its refreshes, and then holds the same claims looking for the same content. */
  lemma {:induction false} RunKeepsSubject(m: Memory, w: Memory, world: World, events: seq<Event>)
    requires Told(m, world) && Told(w, world) && Sane(world) && SameSubject(m.book, w.book) && Runs(m, world, events)
    ensures Runs(w, world, WithoutRefreshes(events))
    ensures SameSubject(Final(m, world, events).book, Final(w, world, WithoutRefreshes(events)).book)
    decreases |events|
  {
    hide Good, Broken, InScope, Added, Restored, FullyRefreshed, SavedStale, SameSubject, Told, After, Enabled;
    if events != [] {
      var e := events[0];
      EventTells(m, world, e);
      EventKeepsSubject(m, w, world, e);
      var left := After(m, world, e);
      if e.Refreshing? {
        RunKeepsSubject(left, w, world, events[1..]);
        assert [] + WithoutRefreshes(events[1..]) == WithoutRefreshes(events[1..]);
      } else {
        EventTells(w, world, e);
        RunKeepsSubject(left, After(w, world, e), world, events[1..]);
        var all := [e] + WithoutRefreshes(events[1..]);
        assert all[0] == e && all[1..] == WithoutRefreshes(events[1..]);
      }
    }
  }

  /** After any run, refreshing everything gives the statuses it would give had no refresh come before. */
  lemma {:induction false} EarlierRefreshesDoNotMatter(world: World, events: seq<Event>, files: Files)
    requires Sane(world) && Runs(START, world, events)
    ensures Runs(START, world, WithoutRefreshes(events))
    ensures var a, b := Final(START, world, events).book, Final(START, world, WithoutRefreshes(events)).book;
      && Ordered(a) && Ordered(b)
      && SameStatuses(FullyRefreshed(a, files, Everything), FullyRefreshed(b, files, Everything))
  {
    hide Runs, Final, Good, SameSubject, FullyRefreshed;
    EmptyIsGood(world);
    SameItself(EMPTY);
    RunKeepsSubject(START, START, world, events);
    RunTells(START, world, events);
    RunTells(START, world, WithoutRefreshes(events));
    var a, b := Final(START, world, events).book, Final(START, world, WithoutRefreshes(events)).book;
    GoodIsOrdered(a, world);
    GoodIsOrdered(b, world);
    FullRefreshForgetsHistory(a, b, files);
  }

  // ---------------------------------------------------------------------------------------------
  // The counter wraps

  const ANCHOR: A.Anchor := A.Anchor("a.go", 0, 0, "", A.Of([""]))
  const LAST: Claim := Claim("c9223372036854775807", "text", [ANCHOR], [], "", Live, "")
  const PLAIN: World := World(path => Some(path), text => text)

  lemma {:induction false} LastIsNumbered()
    ensures NumberOf(LAST.id) == Some(MAX_INT)
  {
    LargestPrinted();
    NumberOfId(MAX_INT);
    assert IdOf(MAX_INT) == LAST.id;
  }

  lemma {:induction false} LastRestores()
    ensures Sane(PLAIN) && Restored([LAST], PLAIN) == Ok(Book(map[LAST.id := Entry(LAST, "")], [LAST.id], MAX_INT))
  {
    hide RestoredOne;
    LastIsRestored();
    assert [LAST][..0] == [] && Restored([], PLAIN) == Ok(EMPTY);
  }

  lemma {:induction false} LastIsRestored()
    ensures RestoredOne(EMPTY, LAST, PLAIN) == Ok(Book(map[LAST.id := Entry(LAST, "")], [LAST.id], MAX_INT))
  {
    hide NumberOf, Appended, RestoredAnchors, FirstUnknown, Derived;
    LastIsNumbered();
    LastAnchors();
    LastIsDerived();
    assert LAST.(anchors := [ANCHOR]) == LAST && [] + [LAST.id] == [LAST.id];
    AppendedNew(EMPTY, Entry(LAST, ""), MAX_INT);
  }

  lemma {:induction false} LastAnchors()
    ensures RestoredAnchors([ANCHOR], LAST.id, PLAIN) == Ok([ANCHOR])
  {
    var front: seq<A.Anchor> := [];
    assert [ANCHOR][..0] == front && RestoredAnchors(front, LAST.id, PLAIN) == Ok(front);
    assert ANCHOR.(path := "a.go") == ANCHOR && front + [ANCHOR] == [ANCHOR];
  }

  lemma {:induction false} LastIsDerived()
    ensures Derived(Entry(LAST, ""), map[]) == Entry(LAST, "")
  {
    assert FirstDoubt([], map[]) == None;
  }

  /**
   Restoring one claim with the largest id and adding one works, but then the list of the two claims is refused: the added
   claim's id is negative.
   */
  lemma {:induction false} WrappedListIsRefused(files: Files)
    requires "a.go" in files && files["a.go"] == [""]
    ensures match Restored([LAST], PLAIN)
      case Err(_) => false
      case Ok(b) =>
        match Added(b, Input("more", [ANCHOR], [], ""), files, PLAIN)
        case Err(_) => false
        case Ok(r) => Good(r, PLAIN) && |Listed(r)| == 2 && Restored(Listed(r), PLAIN).Err?
  {
    hide NumberOf, IdOf, Good, Listed, Derived;
    LastRestores();
    RestoreIsGood([LAST], PLAIN);
    var b, input := Restored([LAST], PLAIN).value, Input("more", [ANCHOR], [], "");
    NumberOfId(MIN_INT);
    assert IdOf(Successor(b.next)) !in b.entries;
    assert Hashed([ANCHOR], files, PLAIN) == Ok([ANCHOR]) by {
      assert [ANCHOR][..0] == [] && Hashed([], files, PLAIN) == Ok([]);
      assert A.Recorded(files["a.go"], ANCHOR) == Some(A.Of([""]));
      assert [] + [ANCHOR] == [ANCHOR];
    }
    assert Parents([], b.entries) == Ok([]);
    AddIsGood(b, input, files, PLAIN);
    var r := Added(b, input, files, PLAIN).value;
    assert IdOf(MIN_INT) in r.entries;
    GoodIsOrdered(r, PLAIN);
    RestoreOfList(r, PLAIN);
  }
}
