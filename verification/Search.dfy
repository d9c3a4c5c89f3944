/** Binary search as the standard library provides it to the index. */
module Search {

  /** Binary search: the least i in [0, n] with f(i) from there on (Go's sort.Search). */
  method First(n: nat, f: nat --> bool) returns (r: nat)
    requires forall i: nat :: i < n ==> f.requires(i)
    requires forall i: nat, j: nat :: i <= j < n && f(i) ==> f(j)
    ensures r <= n
    ensures forall i: nat :: i < r ==> !f(i)
    ensures forall i: nat :: r <= i < n ==> f(i)
  {
    var lo: nat := 0;
    var hi: nat := n;
    while lo < hi
      invariant lo <= hi <= n
      invariant forall i: nat :: i < lo ==> !f(i)
      invariant forall i: nat :: hi <= i < n ==> f(i)
    {
      var mid := (lo + hi) / 2;
      if !f(mid) {
        lo := mid + 1;
      } else {
        hi := mid;
      }
    }
    r := lo;
  }
}
