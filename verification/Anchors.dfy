/**
 Anchors of claims: spans of file content pinned by a hash, found again when their text moves. A hash stands for the
 lines it was computed from.
 */
module Anchors {
  import opened Common

  type Lines = seq<string>

  /** What an anchor records of its span: the hashed lines, or some other text that is no span's hash. */
  datatype Hash = Of(lines: Lines) | Other(text: string)

  /** A span of lines first..last of a file, both included; `first` zero means the whole file. */
  datatype Anchor = Anchor(path: string, first: int, last: int, symbol: string, hash: Hash)

  predicate WholeFile(a: Anchor)
  {
    a.first == 0
  }

  function Width(a: Anchor): int
  {
    a.last - a.first + 1
  }

  /** The lines first..last, none when last comes before first. */
  function Span(lines: Lines, first: int, last: int): Lines
    requires 1 <= first && last <= |lines|
  {
    if last < first then [] else lines[first - 1..last]
  }

  method HashSpan(lines: Lines, first: int, last: int) returns (h: Hash)
    requires 1 <= first && last <= |lines|
    ensures h == Of(Span(lines, first, last))
  {
    var fed: Lines := [];
    var i := first - 1;
    while i < last
      invariant first - 1 <= i && (first <= last ==> i <= last)
      invariant fed == if first <= last then lines[first - 1..i] else []
    {
      fed := fed + [lines[i]];
      i := i + 1;
    }
    return Of(fed);
  }

  /** hashAnchor: the hash of the anchor's span; None when the span is outside the file. */
  method HashAnchor(lines: Lines, a: Anchor) returns (h: Option<Hash>)
    ensures h == Recorded(lines, a)
  {
    if WholeFile(a) {
      var whole := HashSpan(lines, 1, |lines|);
      assert lines[0..|lines|] == lines;
      return Some(whole);
    }
    if a.first < 1 || a.last < a.first || a.last > |lines| { return None; }
    var span := HashSpan(lines, a.first, a.last);
    return Some(span);
  }

  function Recorded(lines: Lines, a: Anchor): Option<Hash>
  {
    if WholeFile(a) then Some(Of(lines))
    else if 1 <= a.first <= a.last <= |lines| then Some(Of(lines[a.first - 1..a.last]))
    else None
  }

  /** The window of the anchor's width starting at line s has the recorded content. */
  predicate Matches(lines: Lines, a: Anchor, s: int)
  {
    1 <= s && s + Width(a) - 1 <= |lines| && Of(Span(lines, s, s + Width(a) - 1)) == a.hash
  }

  /** The recorded content is somewhere in the file. */
  ghost predicate Present(file: Option<Lines>, a: Anchor)
  {
    file.Some? && if WholeFile(a) then Of(file.value) == a.hash else exists s :: Matches(file.value, a, s)
  }

  function Distance(s: int, t: int): nat
  {
    if s < t then t - s else s - t
  }

  /** s is nearer to t than u is, or as near and not after it. */
  predicate Nearer(s: int, u: int, t: int)
  {
    Distance(s, t) < Distance(u, t) || (Distance(s, t) == Distance(u, t) && s <= u)
  }

  /** The nearest matching start among 1..k; the lowest of equally near ones. */
  function Nearest(lines: Lines, a: Anchor, k: nat): Option<int>
  {
    if k == 0 then None
    else
      var best := Nearest(lines, a, k - 1);
      if Matches(lines, a, k) && (best.None? || Distance(k, a.first) < Distance(best.value, a.first)) then Some(k) else best
  }

  lemma {:induction false} NearestIsNearest(lines: Lines, a: Anchor, k: nat)
    ensures var best := Nearest(lines, a, k);
      && (best.None? <==> forall s :: 1 <= s <= k ==> !Matches(lines, a, s))
      && (best.Some? ==> 1 <= best.value <= k && Matches(lines, a, best.value))
      && (best.Some? ==> forall s :: 1 <= s <= k && Matches(lines, a, s) ==> Nearer(best.value, s, a.first))
  {
    hide Matches;
    if k > 0 { NearestIsNearest(lines, a, k - 1); }
  }

  /** The last start a window of the anchor's width can have. */
  function LastStart(lines: Lines, a: Anchor): nat
  {
    if |lines| - Width(a) + 1 < 0 then 0 else |lines| - Width(a) + 1
  }

  /** locate: the anchor at the nearest place that has its content, and whether there is one. */
  function Located(file: Option<Lines>, a: Anchor): (Anchor, bool)
  {
    if file.None? then (a, false)
    else if WholeFile(a) then (a, Of(file.value) == a.hash)
    else match Nearest(file.value, a, LastStart(file.value, a))
      case None => (a, false)
      case Some(s) => (a.(first := s, last := s + Width(a) - 1), true)
  }

  method Locate(file: Option<Lines>, a: Anchor) returns (found: Anchor, ok: bool)
    ensures (found, ok) == Located(file, a)
  {
    if file.None? { return a, false; }
    var lines := file.value;
    if WholeFile(a) {
      var whole := HashSpan(lines, 1, |lines|);
      assert lines[0..|lines|] == lines;
      return a, whole == a.hash;
    }
    if a.last <= |lines| && a.first >= 1 {
      var here := HashSpan(lines, a.first, a.last);
      if here == a.hash {
        InPlace(lines, a);
        return a, true;
      }
    }
    var best := Search(lines, a);
    if best.None? { return a, false; }
    return a.(first := best.value, last := best.value + Width(a) - 1), true;
  }

  lemma {:induction false} InPlace(lines: Lines, a: Anchor)
    requires !WholeFile(a) && 1 <= a.first && a.last <= |lines| && Of(Span(lines, a.first, a.last)) == a.hash
    ensures Located(Some(lines), a) == (a, true)
  {
    assert Matches(lines, a, a.first);
    NearestIsNearest(lines, a, LastStart(lines, a));
  }

  /** The scan over every window of the anchor's width. */
  method Search(lines: Lines, a: Anchor) returns (nearest: Option<int>)
    ensures nearest == Nearest(lines, a, LastStart(lines, a))
  {
    ghost var n := LastStart(lines, a);
    var width := Width(a);
    var best, bestDistance := 0, -1;
    var start := 1;
    while start + width - 1 <= |lines|
      invariant 1 <= start <= n + 1
      invariant Nearest(lines, a, start - 1) == if bestDistance < 0 then None else Some(best)
      invariant bestDistance >= 0 ==> bestDistance == Distance(best, a.first)
      decreases |lines| - width + 2 - start
    {
      var h := HashSpan(lines, start, start + width - 1);
      assert Matches(lines, a, start) <==> h == a.hash;
      if h == a.hash {
        var distance := start - a.first;
        if distance < 0 { distance := -distance; }
        if bestDistance < 0 || distance < bestDistance {
          best, bestDistance := start, distance;
        }
      }
      start := start + 1;
    }
    assert start - 1 == n;
    return if bestDistance < 0 then None else Some(best);
  }

  /**
   locate finds an anchor exactly when its content is in the file, at the nearest window (the lowest of two equally near),
   and keeps its path, symbol, hash and width; an anchor still in place stays there.
   */
  lemma {:induction false} LocatedIsNearest(file: Option<Lines>, a: Anchor)
    ensures var (found, ok) := Located(file, a);
      && (ok <==> Present(file, a))
      && found == a.(first := found.first, last := found.last) && WholeFile(found) == WholeFile(a) && Width(found) == Width(a)
      && (!ok ==> found == a)
      && (ok && !WholeFile(a) ==> Matches(file.value, a, found.first))
      && (ok && !WholeFile(a) ==> forall s :: Matches(file.value, a, s) ==> Nearer(found.first, s, a.first))
      && (file.Some? && !WholeFile(a) && Matches(file.value, a, a.first) ==> found == a)
  {
    if file.Some? && !WholeFile(a) {
      NearestIsNearest(file.value, a, LastStart(file.value, a));
      forall s | Matches(file.value, a, s) ensures 1 <= s <= LastStart(file.value, a) {}
    }
  }

  /** What an anchor is looking for, apart from where it was last seen. */
  predicate SameTarget(a: Anchor, b: Anchor)
  {
    a.path == b.path && a.hash == b.hash && WholeFile(a) == WholeFile(b) && (!WholeFile(a) ==> Width(a) == Width(b))
  }

  /** Whether an anchor is found depends on what it looks for and on the file, not on where it was last seen. */
  lemma {:induction false} PresenceIgnoresPosition(file: Option<Lines>, a: Anchor, b: Anchor)
    requires SameTarget(a, b)
    ensures Present(file, a) <==> Present(file, b)
  {
    if file.Some? && !WholeFile(a) {
      forall s ensures Matches(file.value, a, s) <==> Matches(file.value, b, s) {}
    }
  }

  /** A newly recorded anchor is present in the file it was recorded from, where it was recorded. */
  lemma {:induction false} RecordedIsPresent(lines: Lines, a: Anchor)
    requires Recorded(lines, a).Some?
    ensures var r := a.(hash := Recorded(lines, a).value); Present(Some(lines), r) && Located(Some(lines), r) == (r, true)
  {
    var r := a.(hash := Recorded(lines, a).value);
    if !WholeFile(a) {
      assert Matches(lines, r, r.first);
      LocatedIsNearest(Some(lines), r);
    }
  }
}
