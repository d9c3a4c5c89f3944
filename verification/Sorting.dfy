/** Sorting by a comparison, as the standard library provides it to the encoder. */
module Sorting {
  import opened Common
  import opened Order

  /** No later element comes before an earlier one. */
  ghost predicate Ascending<T(!new)>(s: seq<T>, before: (T, T) -> bool)
  {
    forall i, j :: 0 <= i < j < |s| ==> !before(s[j], s[i])
  }

  ghost predicate StrictOrder<T(!new)>(before: (T, T) -> bool)
  {
    && (forall a, b :: before(a, b) ==> !before(b, a))
    && (forall a, b, c :: before(a, b) && before(b, c) ==> before(a, c))
    && (forall a, b, c :: before(a, c) ==> before(a, b) || before(b, c))
  }

  /** The elements in order. Elements that do not come before one another keep their order (as the stable sort does). */
  method Sort<T(!new, ==)>(s: seq<T>, before: (T, T) -> bool) returns (r: seq<T>)
    requires StrictOrder(before)
    ensures Ascending(r, before) && |r| == |s| && (forall x :: x in r <==> x in s) && multiset(r) == multiset(s)
    ensures Distinct(s) ==> Distinct(r)
  {
    r := [];
    for i := 0 to |s|
      invariant Ascending(r, before) && |r| == i && multiset(r) == multiset(s[..i])
      invariant forall x :: x in r <==> x in s[..i]
      invariant Distinct(s) ==> Distinct(r)
    {
      var k := i;
      while k > 0 && before(s[i], r[k - 1])
        invariant 0 <= k <= i
        invariant forall j :: k <= j < i ==> before(s[i], r[j])
      {
        k := k - 1;
      }
      InsertKeeps(r, k, s[i], before);
      InsertCounts(r, k, s[i]);
      assert s[..i + 1] == s[..i] + [s[i]];
      r := r[..k] + [s[i]] + r[k..];
    }
    assert s[..|s|] == s;
  }

  lemma {:induction false} InsertCounts<T>(s: seq<T>, k: nat, x: T)
    requires k <= |s|
    ensures multiset(s[..k] + [x] + s[k..]) == multiset(s) + multiset{x}
  {
    assert s == s[..k] + s[k..];
  }

  lemma {:induction false} InsertKeeps<T(!new)>(s: seq<T>, k: nat, x: T, before: (T, T) -> bool)
    requires StrictOrder(before) && Ascending(s, before) && k <= |s|
    requires forall j :: k <= j < |s| ==> before(x, s[j])
    requires k > 0 ==> !before(x, s[k - 1])
    ensures var r := s[..k] + [x] + s[k..];
      && |r| == |s| + 1 && Ascending(r, before) && (forall y :: y in r <==> y in s || y == x)
      && (Distinct(s) && x !in s ==> Distinct(r))
  {
    var r := s[..k] + [x] + s[k..];
    assert s == s[..k] + s[k..];
    InsertAscends(s, k, x, before);
  }

  lemma {:induction false} InsertAscends<T(!new)>(s: seq<T>, k: nat, x: T, before: (T, T) -> bool)
    requires StrictOrder(before) && Ascending(s, before) && k <= |s|
    requires forall j :: k <= j < |s| ==> before(x, s[j])
    requires k > 0 ==> !before(x, s[k - 1])
    ensures Ascending(s[..k] + [x] + s[k..], before)
  {
    var r := s[..k] + [x] + s[k..];
    forall i, j | 0 <= i < j < |r| ensures !before(r[j], r[i]) {
      if i == k {
        assert before(x, s[j - 1]);
      } else if j == k && i < k - 1 {
        assert !before(s[k - 1], s[i]);
      }
    }
  }

  // ---------------------------------------------------------------------------------------------
  // Composite keys

  datatype Part = Num(n: int) | Name(s: string)

  /** Compared part by part; keys of one kind have the same parts. */
  type Key = seq<Part>

  predicate PartBefore(a: Part, b: Part)
  {
    match a
    case Num(x) => b.Name? || x < b.n
    case Name(x) => b.Name? && Less(x, b.s)
  }

  predicate KeyBefore(a: Key, b: Key)
  {
    b != [] && (a == [] || PartBefore(a[0], b[0]) || (a[0] == b[0] && KeyBefore(a[1..], b[1..])))
  }

  lemma {:induction false} PartTotal(a: Part, b: Part)
    ensures a == b || PartBefore(a, b) || PartBefore(b, a)
    ensures PartBefore(a, b) ==> !PartBefore(b, a) && a != b
  {
    if a.Name? && b.Name? {
      Total(a.s, b.s);
      Irreflexive(a.s);
      if Less(a.s, b.s) && Less(b.s, a.s) { Transitive(a.s, b.s, a.s); }
    }
  }

  lemma {:induction false} PartTransitive(a: Part, b: Part, c: Part)
    requires PartBefore(a, b) && PartBefore(b, c)
    ensures PartBefore(a, c)
  {
    if a.Name? { Transitive(a.s, b.s, c.s); }
  }

  lemma {:induction false} KeyTransitive(a: Key, b: Key, c: Key)
    requires KeyBefore(a, b) && KeyBefore(b, c)
    ensures KeyBefore(a, c)
  {
    if a != [] {
      if a[0] == b[0] == c[0] {
        PartTotal(a[0], a[0]);
        KeyTransitive(a[1..], b[1..], c[1..]);
      } else if PartBefore(a[0], b[0]) && PartBefore(b[0], c[0]) {
        PartTransitive(a[0], b[0], c[0]);
      }
    }
  }

  lemma {:induction false} KeyTotal(a: Key, b: Key)
    ensures a == b || KeyBefore(a, b) || KeyBefore(b, a)
    ensures KeyBefore(a, b) ==> !KeyBefore(b, a) && a != b
  {
    if a != [] && b != [] {
      PartTotal(a[0], b[0]);
      if a[0] == b[0] {
        KeyTotal(a[1..], b[1..]);
        assert a == [a[0]] + a[1..] && b == [b[0]] + b[1..];
      }
    }
  }

  lemma {:induction false} TwoParts(a: Key, b: Key)
    requires |a| == |b| == 2
    ensures KeyBefore(a, b) <==> PartBefore(a[0], b[0]) || (a[0] == b[0] && PartBefore(a[1], b[1]))
  {
    assert KeyBefore(a[1..], b[1..]) <==> PartBefore(a[1], b[1]) || (a[1] == b[1] && KeyBefore(a[1..][1..], b[1..][1..]));
  }

  lemma {:induction false} OneNumber(a: int, b: int)
    ensures KeyBefore([Num(a)], [Num(b)]) <==> a < b
  {
  }

  /** Keys of one length compare first part first. */
  lemma {:induction false} KeysJoin(a: Key, b: Key, c: Key, d: Key)
    requires |a| == |c|
    ensures KeyBefore(a + b, c + d) <==> KeyBefore(a, c) || (a == c && KeyBefore(b, d))
  {
    if a == [] {
      assert a + b == b && c + d == d;
    } else {
      assert (a + b)[1..] == a[1..] + b && (c + d)[1..] == c[1..] + d;
      KeysJoin(a[1..], b, c[1..], d);
      assert a == [a[0]] + a[1..] && c == [c[0]] + c[1..];
      PartTotal(a[0], c[0]);
    }
  }

  /** No later element has a smaller key. */
  ghost predicate ByKey<T(!new)>(s: seq<T>, key: T -> Key)
  {
    forall i, j :: 0 <= i < j < |s| ==> !KeyBefore(key(s[j]), key(s[i]))
  }

  /** Sorting by key. */
  method SortByKey<T(!new, ==)>(s: seq<T>, key: T -> Key) returns (r: seq<T>)
    ensures |r| == |s| && (forall x :: x in r <==> x in s) && (Distinct(s) ==> Distinct(r)) && multiset(r) == multiset(s)
    ensures ByKey(r, key)
  {
    var before := (a: T, b: T) => KeyBefore(key(a), key(b));
    forall a, b ensures before(a, b) ==> !before(b, a) { KeyTotal(key(a), key(b)); }
    forall a, b, c ensures before(a, b) && before(b, c) ==> before(a, c) {
      if before(a, b) && before(b, c) { KeyTransitive(key(a), key(b), key(c)); }
    }
    forall a, b, c ensures before(a, c) ==> before(a, b) || before(b, c) {
      KeyTotal(key(a), key(b));
      if before(a, c) && before(b, a) { KeyTransitive(key(b), key(a), key(c)); }
    }
    r := Sort(s, before);
    forall i, j | 0 <= i < j < |r| ensures !KeyBefore(key(r[j]), key(r[i])) { assert !before(r[j], r[i]); }
  }

  // ---------------------------------------------------------------------------------------------
  // Sorting indexes

  /** order lists 0..n, once each. */
  ghost predicate Permutes(order: seq<nat>, n: nat)
  {
    |order| == n && Distinct(order) && (forall k :: 0 <= k < n ==> order[k] < n) && forall l: nat :: l < n ==> l in order
  }

  /** The indexes 0..n in the order of a key. */
  method SortIndexes(n: nat, key: nat -> Key) returns (order: seq<nat>)
    ensures Permutes(order, n) && ByKey(order, key)
  {
    var all := seq<nat>(n, i => i);
    order := SortByKey(all, key);
    forall i: nat | i < n ensures i in all { assert all[i] == i; }
    assert forall k :: 0 <= k < n ==> order[k] in all;
  }
}
