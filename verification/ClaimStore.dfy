/**
 The claim store: adding, refreshing, listing and restoring claims in place, and the invariant every operation keeps.
 */
module ClaimStore {
  import opened Common
  import opened Decimals
  import opened Claims
  import A = Anchors

  // ---------------------------------------------------------------------------------------------
  // The invariant

  /** Normalizing and trimming twice is normalizing and trimming once. */
  ghost predicate Sane(world: World)
  {
    && (forall p :: world.norm(p).Some? ==> world.norm(world.norm(p).value) == world.norm(p))
    && (forall t :: world.trim(world.trim(t)) == world.trim(t))
  }

  ghost predicate AnchorFilled(a: A.Anchor, world: World)
  {
    world.norm(a.path) == Some(a.path) && a.hash != A.Other("")
  }

  /** What every stored claim has: text, and at least one hashed anchor on a normalized path. */
  ghost predicate Filled(c: Claim, world: World)
  {
    world.trim(c.text) != "" && c.anchors != [] && forall i :: 0 <= i < |c.anchors| ==> AnchorFilled(c.anchors[i], world)
  }

  /** The 64-bit counter has wrapped: some id has a number below 1. */
  ghost predicate Wrapped(b: Book)
  {
    exists id :: id in b.entries && NumberOf(id).Some? && NumberOf(id).value < 1
  }

  /** Every id is numbered, and until the counter wraps they are numbered 1 to next, where next is in use or zero. */
  ghost predicate Numbered(b: Book)
  {
    && MIN_INT <= b.next <= MAX_INT
    && (forall id :: id in b.entries ==> NumberOf(id).Some?)
    && (!Wrapped(b) ==> 0 <= b.next && forall id :: id in b.entries ==> 1 <= NumberOf(id).value <= b.next)
    && (!Wrapped(b) && b.next != 0 ==> exists id :: id in b.entries && NumberOf(id) == Some(b.next))
  }

  ghost predicate Good(b: Book, world: World)
  {
    && Ordered(b) && Settled(b) && Numbered(b)
    && forall id :: id in b.entries ==> Filled(b.entries[id].claim, world)
  }

  // ---------------------------------------------------------------------------------------------
  // Adding

  /** The anchors of a new claim, hashed from the files now. */
  function Hashed(anchors: seq<A.Anchor>, files: Files, world: World): Result<seq<A.Anchor>>
  {
    if anchors == [] then Ok([])
    else
      var n := |anchors| - 1;
      match Hashed(anchors[..n], files, world)
      case Err(e) => Err(e)
      case Ok(front) =>
        var a := anchors[n];
        match world.norm(a.path)
        case None => Err(BadPath(a.path))
        case Some(path) =>
          if path !in files then Err(Unreadable(path))
          else match A.Recorded(files[path], a)
            case None => Err(OutsideFile(path))
            case Some(h) => Ok(front + [a.(path := path, hash := h)])
  }

  /** The parents without repetitions, all of which must be known. */
  function Parents(ids: seq<string>, entries: map<string, Entry>): Result<seq<string>>
  {
    if ids == [] then Ok([])
    else
      var n := |ids| - 1;
      match Parents(ids[..n], entries)
      case Err(e) => Err(e)
      case Ok(front) =>
        if ids[n] in front then Ok(front)
        else if ids[n] !in entries then Err(UnknownParent(ids[n]))
        else Ok(front + [ids[n]])
  }

  /** The book with one more claim, its status derived. */
  function Appended(b: Book, e: Entry, next: int): Book
    requires forall p :: p in e.claim.parents ==> p in b.entries
  {
    var placed := b.entries[e.claim.id := e];
    Book(placed[e.claim.id := Derived(e, placed)], b.order + [e.claim.id], next)
  }

  /** A claim with a new id is no parent of its own. */
  lemma {:induction false} AppendedNew(b: Book, e: Entry, next: int)
    requires e.claim.id !in b.entries && forall p :: p in e.claim.parents ==> p in b.entries
    ensures Appended(b, e, next) == Book(b.entries[e.claim.id := Derived(e, b.entries)], b.order + [e.claim.id], next)
  {
    hide Derived;
    DerivedDependsOnParents(e, b.entries, b.entries[e.claim.id := e]);
  }

  lemma {:induction false} ParentsAreKnown(ids: seq<string>, entries: map<string, Entry>)
    ensures Parents(ids, entries).Ok? ==> forall p :: p in Parents(ids, entries).value <==> p in ids
    ensures Parents(ids, entries).Ok? ==> forall p :: p in ids ==> p in entries
    ensures Parents(ids, entries).Err? ==> exists p :: p in ids && p !in entries
  {
    if ids != [] {
      var n := |ids| - 1;
      ParentsAreKnown(ids[..n], entries);
      assert ids == ids[..n] + [ids[n]];
    }
  }

  lemma {:induction false} HashedAreFilled(anchors: seq<A.Anchor>, files: Files, world: World)
    requires Sane(world)
    ensures var r := Hashed(anchors, files, world);
      r.Ok? ==> |r.value| == |anchors| && (forall i :: 0 <= i < |r.value| ==> AnchorFilled(r.value[i], world)) && !Broken(r.value, files)
  {
    if anchors != [] {
      var n := |anchors| - 1;
      HashedAreFilled(anchors[..n], files, world);
      if Hashed(anchors, files, world).Ok? {
        var front := Hashed(anchors[..n], files, world).value;
        var a := Hashed(anchors, files, world).value[n];
        assert Hashed(anchors, files, world).value == front + [a];
        A.RecordedIsPresent(files[a.path], anchors[n].(path := a.path));
        BrokenSnoc(front, a, files);
      }
    }
  }

  /** Appending a claim with a new id and known parents changes no other claim and keeps the books in order. */
  lemma {:induction false} AppendedIsOrdered(b: Book, e: Entry, next: int)
    requires Ordered(b) && Settled(b) && e.claim.id !in b.entries
    requires forall p :: p in e.claim.parents ==> p in b.entries
    ensures var r := Appended(b, e, next); Ordered(r) && Settled(r)
  {
    hide FirstDoubt, Appended;
    AppendedNew(b, e, next);
    var r := Appended(b, e, next);
    var n := |b.order|;
    forall i: nat | i < |r.order| ensures Earlier(r, i) {
      if i < n {
        assert Earlier(b, i) && r.order[i] == b.order[i] && r.order[..i] == b.order[..i];
      } else {
        assert r.order[..i] == b.order;
      }
    }
    assert Distinct(r.order);
    assert Ordered(r);
    forall id | id in r.entries ensures ParentsKnown(r, id) && Derived(r.entries[id], r.entries) == r.entries[id] {
      OrderedKnowsParents(r, id);
      if id == e.claim.id {
        DerivedTwice(e, b.entries);
        DerivedDependsOnParents(Derived(e, b.entries), b.entries, r.entries);
      } else {
        OrderedKnowsParents(b, id);
        DerivedDependsOnParents(b.entries[id], b.entries, r.entries);
      }
    }
  }

  function Added(b: Book, input: Input, files: Files, world: World): Result<Book>
  {
    if world.trim(input.text) == "" then Err(BlankText)
    else if input.anchors == [] then Err(NoAnchors)
    else match Hashed(input.anchors, files, world)
      case Err(e) => Err(e)
      case Ok(anchors) =>
        ParentsAreKnown(input.parents, b.entries);
        match Parents(input.parents, b.entries)
        case Err(e) => Err(e)
        case Ok(parents) =>
          var next := Successor(b.next);
          Ok(Appended(b, Entry(Claim(IdOf(next), world.trim(input.text), anchors, parents, input.evidence, Live, ""), ""), next))
  }

  /** The claim says what was put in: trimmed text, evidence, the parents once each, and every anchor under its normalized path. */
  ghost predicate TakesInput(c: Claim, id: string, input: Input, world: World)
  {
    && c.id == id && c.text == world.trim(input.text) && c.evidence == input.evidence
    && Distinct(c.parents) && (forall p :: p in c.parents <==> p in input.parents)
    && |c.anchors| == |input.anchors|
    && forall i :: 0 <= i < |c.anchors| ==> var a, b := input.anchors[i], c.anchors[i];
         world.norm(a.path) == Some(b.path) && b.first == a.first && b.last == a.last && b.symbol == a.symbol
  }

  lemma {:induction false} HashedTake(anchors: seq<A.Anchor>, files: Files, world: World)
    requires Hashed(anchors, files, world).Ok?
    ensures var r := Hashed(anchors, files, world).value;
      |r| == |anchors| && forall i :: 0 <= i < |r| ==>
        world.norm(anchors[i].path) == Some(r[i].path) && r[i].first == anchors[i].first && r[i].last == anchors[i].last
        && r[i].symbol == anchors[i].symbol
  {
    if anchors != [] { HashedTake(anchors[..|anchors| - 1], files, world); }
  }

  lemma {:induction false} ParentsAreDistinct(ids: seq<string>, entries: map<string, Entry>)
    ensures Parents(ids, entries).Ok? ==> Distinct(Parents(ids, entries).value)
  {
    if ids != [] { ParentsAreDistinct(ids[..|ids| - 1], entries); }
  }

  /** Adding under a new id keeps the invariant and every other claim; the new claim is live exactly if its parents are. */
  lemma {:induction false} AddIsGood(b: Book, input: Input, files: Files, world: World)
    requires Good(b, world) && Sane(world) && IdOf(Successor(b.next)) !in b.entries
    ensures var r := Added(b, input, files, world);
      r.Ok? ==>
        && Good(r.value, world)
        && var id := IdOf(Successor(b.next));
           && r.value.order == b.order + [id] && r.value.entries.Keys == b.entries.Keys + {id} && r.value.next == Successor(b.next)
           && (forall other :: other in b.entries ==> r.value.entries[other] == b.entries[other])
           && r.value.entries[id].own == "" && !Broken(r.value.entries[id].claim.anchors, files)
           && TakesInput(r.value.entries[id].claim, id, input, world)
           && (r.value.entries[id].claim.status == Live <==> forall p :: p in input.parents ==> p in b.entries && b.entries[p].claim.status == Live)
  {
    hide Ordered, Settled, Broken, AnchorFilled, FirstDoubt, NumberOf, IdOf, Numbered, Appended;
    var r := Added(b, input, files, world);
    if r.Ok? {
      var next := Successor(b.next);
      HashedAreFilled(input.anchors, files, world);
      HashedTake(input.anchors, files, world);
      ParentsAreKnown(input.parents, b.entries);
      ParentsAreDistinct(input.parents, b.entries);
      var anchors, parents := Hashed(input.anchors, files, world).value, Parents(input.parents, b.entries).value;
      var e := Entry(Claim(IdOf(next), world.trim(input.text), anchors, parents, input.evidence, Live, ""), "");
      AppendedIsOrdered(b, e, next);
      AppendedNew(b, e, next);
      AddedIsNumbered(b, r.value);
      FirstDoubtIsDoubt(parents, b.entries);
      assert r.value == Appended(b, e, next);
      assert Filled(Derived(e, b.entries).claim, world);
    }
  }

  lemma {:induction false} AddedIsNumbered(b: Book, r: Book)
    requires Numbered(b) && r.next == Successor(b.next) && r.entries.Keys == b.entries.Keys + {IdOf(r.next)}
    ensures Numbered(r)
  {
    hide NumberOf, IdOf;
    NumberOfId(r.next);
    var id := IdOf(r.next);
    if Wrapped(b) {
      var old_ :| old_ in b.entries && NumberOf(old_).Some? && NumberOf(old_).value < 1;
      assert old_ in r.entries;
    } else if b.next == MAX_INT {
      assert id in r.entries && NumberOf(id).value < 1;
    } else {
      assert id in r.entries;
    }
  }

  /** An addition that gives out an id in use lists it twice. */
  lemma {:induction false} ReusedIdBreaks(b: Book, input: Input, files: Files, world: World)
    requires Good(b, world) && IdOf(Successor(b.next)) in b.entries && Added(b, input, files, world).Ok?
    ensures !Good(Added(b, input, files, world).value, world)
  {
    hide Hashed, Parents, Settled, FirstDoubt, NumberOf, IdOf, Numbered;
    var r, id := Added(b, input, files, world).value, IdOf(Successor(b.next));
    ParentsAreKnown(input.parents, b.entries);
    assert r.order == b.order + [id];
    var i := IndexOf(b, id);
    assert r.order[i] == r.order[|b.order|];
  }

  /** Until the counter wraps, the next id was never used. */
  lemma {:induction false} NextIsNew(b: Book)
    requires Numbered(b) && !Wrapped(b)
    ensures IdOf(Successor(b.next)) !in b.entries
  {
    hide NumberOf, IdOf;
    NumberOfId(Successor(b.next));
  }

  // ---------------------------------------------------------------------------------------------
  // Listing and restoring

  function Listed(b: Book): (cs: seq<Claim>)
    requires Ordered(b)
    ensures |cs| == |b.order|
  {
    assert forall i: nat :: i < |b.order| ==> Earlier(b, i);
    seq(|b.order|, i requires 0 <= i < |b.order| && Earlier(b, i) => b.entries[b.order[i]].claim)
  }

  function RestoredAnchors(anchors: seq<A.Anchor>, id: string, world: World): Result<seq<A.Anchor>>
  {
    if anchors == [] then Ok([])
    else
      var n := |anchors| - 1;
      match RestoredAnchors(anchors[..n], id, world)
      case Err(e) => Err(e)
      case Ok(front) =>
        var a := anchors[n];
        match world.norm(a.path)
        case None => Err(BadPath(a.path))
        case Some(path) => if a.hash == A.Other("") then Err(NoHash(id)) else Ok(front + [a.(path := path)])
  }

  /** Restoring one more claim; statuses are derived again, stale reasons kept. */
  function RestoredOne(b: Book, c: Claim, world: World): Result<Book>
  {
    if c.id in b.entries then Err(Duplicate(c.id))
    else if NumberOf(c.id).None? || NumberOf(c.id).value < 1 then Err(Malformed(c.id))
    else if world.trim(c.text) == "" || c.anchors == [] then Err(BlankText)
    else match RestoredAnchors(c.anchors, c.id, world)
      case Err(e) => Err(e)
      case Ok(anchors) =>
        if exists p :: p in c.parents && p !in b.entries then Err(UnknownParent(FirstUnknown(c.parents, b.entries)))
        else
          var own := if c.status != Stale then "" else if c.reason == "" then "anchor changed" else c.reason;
          var n := NumberOf(c.id).value;
          Ok(Appended(b, Entry(c.(anchors := anchors), own), if n > b.next then n else b.next))
  }

  function FirstUnknown(parents: seq<string>, entries: map<string, Entry>): string
    requires exists p :: p in parents && p !in entries
  {
    if parents[0] !in entries then parents[0] else FirstUnknown(parents[1..], entries)
  }

  function Restored(saved: seq<Claim>, world: World): Result<Book>
  {
    if saved == [] then Ok(EMPTY)
    else match Restored(saved[..|saved| - 1], world)
      case Err(e) => Err(e)
      case Ok(b) => RestoredOne(b, saved[|saved| - 1], world)
  }

  lemma {:induction false} RestoredAnchorsAreFilled(anchors: seq<A.Anchor>, id: string, world: World)
    requires Sane(world)
    ensures var r := RestoredAnchors(anchors, id, world);
      r.Ok? ==> |r.value| == |anchors| && forall i :: 0 <= i < |r.value| ==> AnchorFilled(r.value[i], world)
  {
    if anchors != [] { RestoredAnchorsAreFilled(anchors[..|anchors| - 1], id, world); }
  }

  /** Whatever claims it is given, Restore fails or builds a store that keeps the invariant. */
  lemma {:induction false} RestoreIsGood(saved: seq<Claim>, world: World)
    requires Sane(world)
    ensures Restored(saved, world).Ok? ==> Good(Restored(saved, world).value, world) && !Wrapped(Restored(saved, world).value)
  {
    hide Ordered, Settled, RestoredOne;
    if saved == [] {
      EmptyIsGood(world);
    } else {
      RestoreIsGood(saved[..|saved| - 1], world);
      if Restored(saved[..|saved| - 1], world).Ok? {
        RestoredOneIsGood(Restored(saved[..|saved| - 1], world).value, saved[|saved| - 1], world);
      }
    }
  }

  lemma {:induction false} EmptyIsGood(world: World)
    ensures Good(EMPTY, world) && !Wrapped(EMPTY)
  {
  }

  lemma {:induction false} RestoredOneIsGood(b: Book, c: Claim, world: World)
    requires Good(b, world) && Sane(world) && !Wrapped(b)
    ensures RestoredOne(b, c, world).Ok? ==> Good(RestoredOne(b, c, world).value, world) && !Wrapped(RestoredOne(b, c, world).value)
  {
    hide Ordered, Settled, AnchorFilled, FirstDoubt, NumberOf, Appended;
    if RestoredOne(b, c, world).Ok? {
      RestoredAnchorsAreFilled(c.anchors, c.id, world);
      var anchors := RestoredAnchors(c.anchors, c.id, world).value;
      var own := if c.status != Stale then "" else if c.reason == "" then "anchor changed" else c.reason;
      var n := NumberOf(c.id).value;
      var e := Entry(c.(anchors := anchors), own);
      var next := if n > b.next then n else b.next;
      AppendedIsOrdered(b, e, next);
      AppendedNew(b, e, next);
      assert RestoredOne(b, c, world).value == Appended(b, e, next);
      assert Filled(Derived(e, b.entries).claim, world);
      NumberIsInRange(c.id);
      RestoredIsNumbered(b, RestoredOne(b, c, world).value, c.id);
    }
  }

  lemma {:induction false} RestoredIsNumbered(b: Book, r: Book, id: string)
    requires Numbered(b) && !Wrapped(b) && NumberOf(id).Some? && 1 <= NumberOf(id).value <= MAX_INT
    requires r.entries.Keys == b.entries.Keys + {id}
    requires r.next == if NumberOf(id).value > b.next then NumberOf(id).value else b.next
    ensures Numbered(r) && !Wrapped(r)
  {
    hide NumberOf;
    assert id in r.entries;
  }

  lemma {:induction false} NumberIsInRange(id: string)
    ensures NumberOf(id).Some? ==> MIN_INT <= NumberOf(id).value <= MAX_INT
  {
  }

  // ---------------------------------------------------------------------------------------------
  // Restore undoes List

  /** The largest number of the first i ids, 0 if there are none. */
  ghost function Largest(b: Book, i: nat): int
    requires i <= |b.order| && forall k :: 0 <= k < i ==> NumberOf(b.order[k]).Some?
  {
    if i == 0 then 0
    else
      var rest := Largest(b, i - 1);
      var n := NumberOf(b.order[i - 1]).value;
      if n > rest then n else rest
  }

  /** The book of the first i claims alone. */
  ghost function Front(b: Book, i: nat): Book
    requires i <= |b.order| && forall k :: 0 <= k < i ==> NumberOf(b.order[k]).Some?
  {
    Book(map id | id in b.entries && id in b.order[..i] :: b.entries[id], b.order[..i], Largest(b, i))
  }

  lemma {:induction false} RestoredAnchorsAreSame(anchors: seq<A.Anchor>, id: string, world: World)
    requires forall i :: 0 <= i < |anchors| ==> AnchorFilled(anchors[i], world)
    ensures RestoredAnchors(anchors, id, world) == Ok(anchors)
  {
    if anchors != [] {
      var n := |anchors| - 1;
      RestoredAnchorsAreSame(anchors[..n], id, world);
      var a := anchors[n];
      assert AnchorFilled(a, world);
      assert a.(path := a.path) == a;
      assert anchors == anchors[..n] + [a];
    }
  }

  lemma {:induction false} FrontHasParents(b: Book, i: nat)
    requires Ordered(b) && i < |b.order|
    requires forall k :: 0 <= k < |b.order| ==> NumberOf(b.order[k]).Some?
    ensures Earlier(b, i) && b.order[i] !in Front(b, i).entries
    ensures forall p :: p in b.entries[b.order[i]].claim.parents ==>
      p in Front(b, i).entries && p in b.entries && Front(b, i).entries[p] == b.entries[p]
  {
    hide NumberOf, Largest;
    assert Earlier(b, i);
    NotYet(b, i, i);
  }

  lemma {:induction false} FrontSnoc(b: Book, i: nat)
    requires Ordered(b) && i < |b.order|
    requires forall k :: 0 <= k < |b.order| ==> NumberOf(b.order[k]).Some?
    ensures Earlier(b, i)
    ensures var front, n, id := Front(b, i), NumberOf(b.order[i]).value, b.order[i];
      Front(b, i + 1) == Book(front.entries[id := b.entries[id]], front.order + [id], if n > front.next then n else front.next)
  {
    hide NumberOf;
    assert Earlier(b, i);
    assert b.order[..i + 1] == b.order[..i] + [b.order[i]];
    var id := b.order[i];
    assert Front(b, i + 1).entries == Front(b, i).entries[id := b.entries[id]];
  }

  lemma {:induction false} FrontGrows(b: Book, i: nat, world: World)
    requires Good(b, world) && i < |b.order|
    requires forall k :: 0 <= k < |b.order| ==> NumberOf(b.order[k]).Some?
    requires NumberOf(b.order[i]).value >= 1
    ensures Earlier(b, i) && RestoredOne(Front(b, i), b.entries[b.order[i]].claim, world) == Ok(Front(b, i + 1))
  {
    hide NumberOf, FirstDoubt, Front, Derived, Ordered, Appended;
    var front := Front(b, i);
    var id := b.order[i];
    FrontHasParents(b, i);
    FrontSnoc(b, i);
    var e := b.entries[id];
    var c := e.claim;
    assert Filled(c, world) && c.id == id by { assert b.entries[id].claim.id == id by { IdStands(b, id); } }
    RestoredAnchorsAreSame(c.anchors, id, world);
    assert ParentsKnown(b, id) && Derived(e, b.entries) == e;
    DerivedDependsOnParents(e, b.entries, front.entries);
    Rederives(e, front.entries);
    AppendedNew(front, e, if NumberOf(id).value > front.next then NumberOf(id).value else front.next);
  }

  lemma {:induction false} IdStands(b: Book, id: string)
    requires Ordered(b) && id in b.entries
    ensures b.entries[id].claim.id == id
  {
  }

  /** A settled entry is what its claim alone restores to. */
  lemma {:induction false} Rederives(e: Entry, entries: map<string, Entry>)
    requires forall p :: p in e.claim.parents ==> p in entries
    requires Derived(e, entries) == e
    ensures var c := e.claim;
      Entry(c, if c.status != Stale then "" else if c.reason == "" then "anchor changed" else c.reason) == e
  {
  }

  lemma {:induction false} RestoresPrefix(b: Book, i: nat, world: World)
    requires Good(b, world) && i <= |b.order|
    requires forall k :: 0 <= k < |b.order| ==> NumberOf(b.order[k]).Some? && NumberOf(b.order[k]).value >= 1
    ensures Restored(Listed(b)[..i], world) == Ok(Front(b, i))
  {
    hide NumberOf, RestoredOne, Settled, Filled, Numbered;
    if i == 0 {
      assert Front(b, 0) == EMPTY;
    } else {
      RestoresPrefix(b, i - 1, world);
      assert Listed(b)[..i][..i - 1] == Listed(b)[..i - 1];
      ListedAt(b, i - 1);
      FrontGrows(b, i - 1, world);
    }
  }

  lemma {:induction false} LargestBounds(b: Book, i: nat)
    requires i <= |b.order| && forall k :: 0 <= k < i ==> NumberOf(b.order[k]).Some?
    ensures Largest(b, i) >= 0
    ensures forall k :: 0 <= k < i ==> NumberOf(b.order[k]).value <= Largest(b, i)
    ensures Largest(b, i) == 0 || exists k :: 0 <= k < i && NumberOf(b.order[k]) == Some(Largest(b, i))
  {
    hide NumberOf;
    if i > 0 { LargestBounds(b, i - 1); }
  }

  /** Restoring what List returns gives back the very same store, exactly as long as the id counter has not wrapped. */
  lemma {:induction false} RestoreOfList(b: Book, world: World)
    requires Good(b, world)
    ensures Restored(Listed(b), world) == Ok(b) <==> !Wrapped(b)
    ensures Wrapped(b) ==> Restored(Listed(b), world).Err?
  {
    hide NumberOf, Settled, Filled, Front, Restored, Listed;
    var n := |b.order|;
    assert forall k :: 0 <= k < n ==> b.order[k] in b.entries;
    if !Wrapped(b) {
      RestoresPrefix(b, n, world);
      assert Listed(b)[..n] == Listed(b);
      WholeFront(b);
    } else {
      var id :| id in b.entries && NumberOf(id).Some? && NumberOf(id).value < 1;
      var k := IndexOf(b, id);
      ListedAt(b, k);
      NegativeFails(Listed(b), world, k);
    }
  }

  lemma {:induction false} ListedAt(b: Book, k: nat)
    requires Ordered(b) && k < |b.order|
    ensures Earlier(b, k) && Listed(b)[k] == b.entries[b.order[k]].claim && Listed(b)[k].id == b.order[k]
  {
    assert Earlier(b, k);
  }

  lemma {:induction false} WholeFront(b: Book)
    requires Ordered(b) && Numbered(b) && !Wrapped(b) && forall k :: 0 <= k < |b.order| ==> NumberOf(b.order[k]).Some?
    ensures Front(b, |b.order|) == b
  {
    hide NumberOf;
    var n := |b.order|;
    LargestBounds(b, n);
    assert forall k :: 0 <= k < n ==> b.order[k] in b.entries;
    if b.next != 0 {
      var id :| id in b.entries && NumberOf(id) == Some(b.next);
      var k := IndexOf(b, id);
    }
    assert b.order[..n] == b.order;
    assert Front(b, n).entries == b.entries;
  }

  lemma {:induction false} NegativeFails(saved: seq<Claim>, world: World, k: nat)
    requires k < |saved| && NumberOf(saved[k].id).Some? && NumberOf(saved[k].id).value < 1
    ensures Restored(saved, world).Err?
  {
    hide NumberOf;
    if k < |saved| - 1 { NegativeFails(saved[..|saved| - 1], world, k); }
  }

  // ---------------------------------------------------------------------------------------------
  // The store

  /** The transitions between two books, in creation order, among the first i claims. */
  function Transitions(was: Book, now: Book, i: nat): seq<Change>
    requires Ordered(was) && SameShape(was, now) && i <= |was.order|
  {
    if i == 0 then []
    else
      assert Earlier(was, i - 1);
      var id := was.order[i - 1];
      var a, b := was.entries[id].claim.status, now.entries[id].claim.status;
      Transitions(was, now, i - 1) + if a != b then [Change(id, a, b)] else []
  }

  /** What a refresh of these paths re-checks: everything when none is given, else the normalized ones. */
  function ScopeOf(paths: seq<string>, world: World): Scope
  {
    if paths == [] then Everything
    else Only(set p | p in paths && world.norm(p).Some? :: world.norm(p).value)
  }

  lemma {:induction false} TransitionsStand(was: Book, a: Book, b: Book, i: nat)
    requires Ordered(was) && SameShape(was, a) && SameShape(was, b) && i <= |was.order|
    requires i < |was.order| ==> Earlier(was, i) && forall id :: id in a.entries && id != was.order[i] ==> b.entries[id] == a.entries[id]
    requires i == |was.order| ==> a == b
    ensures Transitions(was, a, i) == Transitions(was, b, i)
  {
    if i < |was.order| { TransitionsAgree(was, a, b, i, i); }
  }

  lemma {:induction false} TransitionsAgree(was: Book, a: Book, b: Book, i: nat, k: nat)
    requires Ordered(was) && SameShape(was, a) && SameShape(was, b) && k <= i < |was.order|
    requires forall id :: id in a.entries && id != was.order[i] ==> b.entries[id] == a.entries[id]
    ensures Transitions(was, a, k) == Transitions(was, b, k)
  {
    if k > 0 {
      TransitionsAgree(was, a, b, i, k - 1);
      assert Earlier(was, k - 1);
      NotYet(was, k - 1, i);
    }
  }

  lemma {:induction false} HashedStops(anchors: seq<A.Anchor>, i: nat, files: Files, world: World)
    requires i <= |anchors| && Hashed(anchors[..i], files, world).Err?
    ensures Hashed(anchors, files, world) == Hashed(anchors[..i], files, world)
    decreases |anchors|
  {
    if i < |anchors| {
      assert anchors[..|anchors| - 1][..i] == anchors[..i];
      HashedStops(anchors[..|anchors| - 1], i, files, world);
    } else {
      assert anchors[..i] == anchors;
    }
  }

  lemma {:induction false} ParentsStop(ids: seq<string>, i: nat, entries: map<string, Entry>)
    requires i <= |ids| && Parents(ids[..i], entries).Err?
    ensures Parents(ids, entries) == Parents(ids[..i], entries)
    decreases |ids|
  {
    if i < |ids| {
      assert ids[..|ids| - 1][..i] == ids[..i];
      ParentsStop(ids[..|ids| - 1], i, entries);
    } else {
      assert ids[..i] == ids;
    }
  }

  lemma {:induction false} RestoredAnchorsStop(anchors: seq<A.Anchor>, i: nat, id: string, world: World)
    requires i <= |anchors| && RestoredAnchors(anchors[..i], id, world).Err?
    ensures RestoredAnchors(anchors, id, world) == RestoredAnchors(anchors[..i], id, world)
    decreases |anchors|
  {
    if i < |anchors| {
      assert anchors[..|anchors| - 1][..i] == anchors[..i];
      RestoredAnchorsStop(anchors[..|anchors| - 1], i, id, world);
    } else {
      assert anchors[..i] == anchors;
    }
  }

  lemma {:induction false} RestoredStops(saved: seq<Claim>, i: nat, world: World)
    requires i <= |saved| && Restored(saved[..i], world).Err?
    ensures Restored(saved, world) == Restored(saved[..i], world)
    decreases |saved|
  {
    if i < |saved| {
      assert saved[..|saved| - 1][..i] == saved[..i];
      RestoredStops(saved[..|saved| - 1], i, world);
    } else {
      assert saved[..i] == saved;
    }
  }

  lemma {:induction false} FirstUnknownAt(parents: seq<string>, entries: map<string, Entry>, i: nat)
    requires i < |parents| && parents[i] !in entries && forall k :: 0 <= k < i ==> parents[k] in entries
    ensures (exists p :: p in parents && p !in entries) && FirstUnknown(parents, entries) == parents[i]
  {
    assert parents[i] in parents;
    if i > 0 {
      assert parents[0] in entries;
      FirstUnknownAt(parents[1..], entries, i - 1);
    }
  }

  lemma {:induction false} OthersStand(b: Book, files: Files, scope: Scope, id: string)
    requires Ordered(b) && id in b.entries
    ensures forall other :: other in b.entries && other != id ==> RefreshOne(b, files, scope, id).entries[other] == b.entries[other]
  {
  }

  lemma {:induction false} NoTransitions(b: Book)
    requires Ordered(b)
    ensures SameShape(b, b) && Transitions(b, b, 0) == []
  {
  }

  lemma {:induction false} TransitionStep(was: Book, files: Files, scope: Scope, i: nat)
    requires Ordered(was) && i < |was.order|
    ensures Earlier(was, i)
    ensures var mid, now, id := Refreshed(was, files, scope, i), Refreshed(was, files, scope, i + 1), was.order[i];
      && id in mid.entries && id in now.entries
      && var a, b := mid.entries[id].claim.status, now.entries[id].claim.status;
         Transitions(was, now, i + 1) == Transitions(was, mid, i) + if a != b then [Change(id, a, b)] else []
  {
    hide RefreshOne, Ordered;
    var mid, now, id := Refreshed(was, files, scope, i), Refreshed(was, files, scope, i + 1), was.order[i];
    assert Earlier(was, i) && Earlier(mid, i) by { PlaceAt(was, i); PlaceAt(mid, i); }
    OthersStand(mid, files, scope, id);
    TransitionsStand(was, mid, now, i);
    RefreshedAt(was, files, scope, i, i);
  }

  lemma {:induction false} PlaceAt(b: Book, i: nat)
    requires Ordered(b) && i < |b.order|
    ensures Earlier(b, i)
  {
  }

  lemma {:induction false} GoodIsOrdered(b: Book, world: World)
    requires Good(b, world)
    ensures Ordered(b)
  {
  }

  /** Refresh keeps the invariant. */
  lemma {:induction false} RefreshIsGood(b: Book, files: Files, scope: Scope, world: World)
    requires Good(b, world)
    ensures Good(FullyRefreshed(b, files, scope), world)
  {
    hide Settled, NumberOf, Refreshed, FirstDoubt;
    var r := FullyRefreshed(b, files, scope);
    RefreshSettles(b, files, scope);
    forall id | id in r.entries ensures Filled(r.entries[id].claim, world) {
      RefreshJudges(b, files, scope, id);
      assert Filled(b.entries[id].claim, world) && SameClaim(b.entries[id].claim, r.entries[id].claim);
      forall i | 0 <= i < |r.entries[id].claim.anchors| ensures AnchorFilled(r.entries[id].claim.anchors[i], world) {
        assert A.SameTarget(b.entries[id].claim.anchors[i], r.entries[id].claim.anchors[i]);
      }
    }
  }

  class Store {
    const world: World
    var entries: map<string, Entry>
    var order: seq<string>
    var next: int

    function State(): Book
      reads this
    {
      Book(entries, order, next)
    }

    ghost predicate Valid()
      reads this
    {
      Sane(world) && Good(State(), world)
    }

    constructor (world: World)
      requires Sane(world)
      ensures this.world == world && Valid() && State() == EMPTY
    {
      this.world := world;
      entries, order, next := map[], [], 0;
      new;
      EmptyIsGood(world);
    }

    /** applyDerived, for the claim with this id. */
    method ApplyDerived(id: string)
      requires id in entries && forall p :: p in entries[id].claim.parents ==> p in entries
      modifies this`entries
      ensures entries == old(entries)[id := Derived(old(entries)[id], old(entries))]
    {
      var e := entries[id];
      if e.own != "" {
        entries := entries[id := e.(claim := e.claim.(status := Stale, reason := e.own))];
        return;
      }
      for i := 0 to |e.claim.parents|
        invariant entries == old(entries)
        invariant FirstDoubt(e.claim.parents, entries) == FirstDoubt(e.claim.parents[i..], entries)
      {
        var p := e.claim.parents[i];
        var s := entries[p].claim.status;
        if s != Live {
          entries := entries[id := e.(claim := e.claim.(status := Doubted, reason := "derived from " + StatusName(s) + " claim " + p))];
          return;
        }
      }
      entries := entries[id := e.(claim := e.claim.(status := Live, reason := ""))];
    }

    /** Store a claim last and derive its status. */
    method Append(e: Entry, number: int)
      requires forall p :: p in e.claim.parents ==> p in entries
      modifies this`entries, this`order, this`next
      ensures State() == Appended(old(State()), e, number)
    {
      hide Derived;
      next := number;
      entries := entries[e.claim.id := e];
      order := order + [e.claim.id];
      ApplyDerived(e.claim.id);
    }

    /** Add. The store stays valid as long as the next id is new, which it is until the counter wraps (NextIsNew). */
    method Add(input: Input, files: Files) returns (r: Result<Claim>)
      requires Valid()
      modifies this
      ensures old(IdOf(Successor(next)) !in entries) ==> Valid()
      ensures match Added(old(State()), input, files, world)
              case Err(e) => r == Err(e) && State() == old(State())
              case Ok(b) => State() == b && IdOf(b.next) in b.entries && r == Ok(b.entries[IdOf(b.next)].claim)
    {
      hide Good, Derived, Hashed, Parents, NumberOf, IdOf, Sane;
      if IdOf(Successor(next)) !in entries { AddIsGood(State(), input, files, world); }
      var text := world.trim(input.text);
      if text == "" { return Err(BlankText); }
      if input.anchors == [] { return Err(NoAnchors); }
      var hashed := HashAll(input.anchors, files);
      if hashed.Err? { return Err(hashed.error); }
      ParentsAreKnown(input.parents, entries);
      var parents := KnownParents(input.parents);
      if parents.Err? { return Err(parents.error); }
      var id := IdOf(Successor(next));
      Append(Entry(Claim(id, text, hashed.value, parents.value, input.evidence, Live, ""), ""), Successor(next));
      r := Ok(entries[id].claim);
    }

    /** The anchors of a new claim, hashed. */
    method HashAll(anchors: seq<A.Anchor>, files: Files) returns (r: Result<seq<A.Anchor>>)
      ensures r == Hashed(anchors, files, world)
    {
      var hashed: seq<A.Anchor> := [];
      for i := 0 to |anchors|
        invariant Hashed(anchors[..i], files, world) == Ok(hashed)
      {
        assert anchors[..i + 1][..i] == anchors[..i];
        var a := anchors[i];
        var path := world.norm(a.path);
        if path.None? {
          HashedStops(anchors, i + 1, files, world);
          return Err(BadPath(a.path));
        }
        if path.value !in files {
          HashedStops(anchors, i + 1, files, world);
          return Err(Unreadable(path.value));
        }
        var h := A.HashAnchor(files[path.value], a);
        if h.None? {
          HashedStops(anchors, i + 1, files, world);
          return Err(OutsideFile(path.value));
        }
        hashed := hashed + [a.(path := path.value, hash := h.value)];
      }
      assert anchors[..|anchors|] == anchors;
      r := Ok(hashed);
    }

    method KnownParents(ids: seq<string>) returns (r: Result<seq<string>>)
      ensures r == Parents(ids, entries)
    {
      var parents: seq<string> := [];
      var seen: set<string> := {};
      for i := 0 to |ids|
        invariant Parents(ids[..i], entries) == Ok(parents)
        invariant forall p :: p in seen <==> p in parents
      {
        assert ids[..i + 1][..i] == ids[..i];
        if ids[i] !in seen {
          if ids[i] !in entries {
            ParentsStop(ids, i + 1, entries);
            return Err(UnknownParent(ids[i]));
          }
          seen := seen + {ids[i]};
          parents := parents + [ids[i]];
        }
      }
      assert ids[..|ids|] == ids;
      r := Ok(parents);
    }

    method List() returns (cs: seq<Claim>)
      requires Valid()
      ensures cs == Listed(State())
    {
      cs := [];
      for i := 0 to |order|
        invariant cs == Listed(State())[..i]
      {
        ListedAt(State(), i);
        cs := cs + [entries[order[i]].claim];
      }
    }

    /** Re-check every anchor of a claim, moving those found elsewhere. */
    method RecheckClaim(id: string, files: Files)
      requires id in entries
      modifies this`entries
      ensures entries == old(entries)[id := Recheck(old(entries)[id], files)]
    {
      var e := entries[id].(own := "");
      var anchors := e.claim.anchors;
      for i := 0 to |anchors|
        invariant entries == old(entries)
        invariant e == Entry(old(entries)[id].claim.(anchors := Checked(anchors, files, i).0), Checked(anchors, files, i).1)
      {
        var a := e.claim.anchors[i];
        var found, ok := A.Locate(FileAt(files, a.path), a);
        if !ok {
          if e.own == "" { e := e.(own := Describe(a)); }
        } else {
          e := e.(claim := e.claim.(anchors := e.claim.anchors[i := found]));
        }
      }
      assert e == Recheck(old(entries)[id], files);
      entries := entries[id := e];
    }

    /** One claim's turn in a refresh. */
    method RefreshClaim(i: nat, files: Files, scope: Scope)
      requires Ordered(State()) && i < |order| && order[i] in entries
      modifies this`entries
      ensures State() == RefreshOne(old(State()), files, scope, order[i])
    {
      hide Derived, Recheck;
      ghost var was := State();
      var id := order[i];
      OrderedKnowsParents(was, id);
      assert Earlier(was, i);
      NotYet(was, i, i);
      var touched := scope.Everything?;
      var anchors := entries[id].claim.anchors;
      for k := 0 to |anchors|
        invariant touched <==> scope.Everything? || exists j :: 0 <= j < k && anchors[j].path in scope.paths
      {
        if scope.Only? && anchors[k].path in scope.paths { touched := true; }
      }
      if touched { RecheckClaim(id, files); }
      assert entries == was.entries[id := Rechecked(was.entries[id], files, scope)];
      RecheckKeepsClaim(was.entries[id], files, scope);
      DerivedDependsOnParents(entries[id], was.entries, entries);
      ApplyDerived(id);
    }

    method Refresh(paths: seq<string>, files: Files) returns (changes: seq<Change>)
      requires Valid()
      modifies this`entries
      ensures Valid() && State() == FullyRefreshed(old(State()), files, ScopeOf(paths, world))
      ensures changes == Transitions(old(State()), State(), |order|)
    {
      hide Good, Derived, Rechecked, Recheck, InScope, Sane, ScopeOf, RefreshOne, SameShape, Distinct, Transitions;
      assert Ordered(State()) by { GoodIsOrdered(State(), world); }
      ghost var was := State();
      var scope := ScopeOf(paths, world);
      changes := [];
      assert Transitions(was, was, 0) == [] by { NoTransitions(was); }
      for i := 0 to |order|
        invariant State() == Refreshed(was, files, scope, i)
        invariant changes == Transitions(was, State(), i)
      {
        ghost var mid := State();
        var id := order[i];
        assert id in mid.entries by { assert Earlier(mid, i); }
        var before := entries[id].claim.status;
        RefreshClaim(i, files, scope);
        assert State() == Refreshed(was, files, scope, i + 1);
        TransitionStep(was, files, scope, i);
        if entries[id].claim.status != before {
          changes := changes + [Change(id, before, entries[id].claim.status)];
        }
      }
      RefreshIsGood(was, files, scope, world);
    }

    /** Restore: a store with the saved claims, or the first thing wrong with them. */
    static method Restore(world: World, saved: seq<Claim>) returns (r: Result<Store>)
      requires Sane(world)
      ensures match Restored(saved, world)
              case Err(e) => r == Err(e)
              case Ok(b) => r.Ok? && fresh(r.value) && r.value.world == world && r.value.Valid() && r.value.State() == b
    {
      hide Good, RestoredOne, Sane, Wrapped;
      assert !Wrapped(EMPTY) by { EmptyIsGood(world); }
      var s := new Store(world);
      for i := 0 to |saved|
        invariant fresh(s) && s.world == world && s.Valid() && !Wrapped(s.State())
        invariant Restored(saved[..i], world) == Ok(s.State())
      {
        assert saved[..i + 1][..i] == saved[..i];
        RestoredOneIsGood(s.State(), saved[i], world);
        var error := s.RestoreClaim(saved[i]);
        if error.Some? {
          RestoredStops(saved, i + 1, world);
          return Err(error.value);
        }
      }
      assert saved[..|saved|] == saved;
      r := Ok(s);
    }

    /** One saved claim: its error, or None when it is stored. */
    method RestoreClaim(c: Claim) returns (error: Option<Error>)
      modifies this`entries, this`order, this`next
      ensures match RestoredOne(old(State()), c, world)
              case Err(e) => error == Some(e)
              case Ok(b) => error == None && State() == b
    {
      hide Derived, NumberOf;
      if c.id in entries { return Some(Duplicate(c.id)); }
      var n := NumberOf(c.id);
      if n.None? || n.value < 1 { return Some(Malformed(c.id)); }
      if world.trim(c.text) == "" || c.anchors == [] { return Some(BlankText); }
      var anchors: seq<A.Anchor> := [];
      for i := 0 to |c.anchors|
        invariant RestoredAnchors(c.anchors[..i], c.id, world) == Ok(anchors)
      {
        assert c.anchors[..i + 1][..i] == c.anchors[..i];
        var a := c.anchors[i];
        var path := world.norm(a.path);
        if path.None? {
          RestoredAnchorsStop(c.anchors, i + 1, c.id, world);
          return Some(BadPath(a.path));
        }
        if a.hash == A.Other("") {
          RestoredAnchorsStop(c.anchors, i + 1, c.id, world);
          return Some(NoHash(c.id));
        }
        anchors := anchors + [a.(path := path.value)];
      }
      assert c.anchors[..|c.anchors|] == c.anchors;
      for i := 0 to |c.parents|
        invariant forall k :: 0 <= k < i ==> c.parents[k] in entries
      {
        if c.parents[i] !in entries {
          FirstUnknownAt(c.parents, entries, i);
          return Some(UnknownParent(c.parents[i]));
        }
      }
      var own := if c.status != Stale then "" else if c.reason == "" then "anchor changed" else c.reason;
      var e := Entry(c.(anchors := anchors), own);
      Append(e, if n.value > next then n.value else next);
      return None;
    }
  }
}
