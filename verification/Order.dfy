/** The order the index sorts everything by: the byte-wise order of strings, and how prefixes sit in it. */
module Order {

  type Path = string

  /** a is strictly before b. */
  predicate Less(a: string, b: string)
  {
    b != [] && (a == [] || a[0] < b[0] || (a[0] == b[0] && Less(a[1..], b[1..])))
  }

  predicate AtMost(a: string, b: string)
  {
    a == b || Less(a, b)
  }

  lemma {:induction false} Irreflexive(a: string)
    ensures !Less(a, a)
  {
    if a != [] {
      Irreflexive(a[1..]);
    }
  }

  lemma {:induction false} Transitive(a: string, b: string, c: string)
    requires Less(a, b) && Less(b, c)
    ensures Less(a, c)
  {
    if a != [] && a[0] == b[0] == c[0] {
      Transitive(a[1..], b[1..], c[1..]);
    }
  }

  lemma {:induction false} Total(a: string, b: string)
    ensures a == b || Less(a, b) || Less(b, a)
  {
    if a != [] && b != [] && a[0] == b[0] {
      Total(a[1..], b[1..]);
      assert a == [a[0]] + a[1..] && b == [b[0]] + b[1..];
    }
  }

  /** Exactly one of Less(a, b) and AtMost(b, a) holds. */
  lemma {:induction false} Trichotomy(a: string, b: string)
    ensures Less(a, b) <==> !AtMost(b, a)
  {
    Total(a, b);
    if Less(a, b) {
      if a == b { Irreflexive(a); }
      if Less(b, a) { Transitive(a, b, a); Irreflexive(a); }
    }
  }

  lemma {:induction false} LessAtMost(a: string, b: string, c: string)
    requires (Less(a, b) && AtMost(b, c)) || (AtMost(a, b) && Less(b, c))
    ensures Less(a, c) && a != c
  {
    if Less(a, b) && Less(b, c) { Transitive(a, b, c); }
    Irreflexive(a);
  }

  lemma {:induction false} AtMostTransitive(a: string, b: string, c: string)
    requires AtMost(a, b) && AtMost(b, c)
    ensures AtMost(a, c)
  {
    if a != b && b != c { Transitive(a, b, c); }
  }

  lemma {:induction false} PrefixIsFirst(prefix: string, p: string)
    requires prefix <= p
    ensures AtMost(prefix, p)
  {
    if prefix != [] {
      PrefixIsFirst(prefix[1..], p[1..]);
    }
  }

  /** The strings that start with a prefix are contiguous. */
  lemma {:induction false} PrefixesAreConvex(prefix: string, p: string, q: string)
    requires AtMost(prefix, p) && AtMost(p, q) && prefix <= q
    ensures prefix <= p
  {
    if prefix != [] && prefix != p {
      if p == q {
      } else {
        assert p != [] && prefix[0] == q[0];
        assert prefix[0] == p[0];
        PrefixesAreConvex(prefix[1..], p[1..], q[1..]);
        assert p == [p[0]] + p[1..] && prefix == [prefix[0]] + prefix[1..];
      }
    }
  }
}
