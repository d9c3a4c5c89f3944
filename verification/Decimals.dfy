/** Decimal numbers as the program prints and parses them. */
module Decimals {
  import opened Common

  const MAX_INT: int := 0x7FFF_FFFF_FFFF_FFFF
  const MIN_INT: int := -0x8000_0000_0000_0000

  function Digit(d: nat): char
    requires d < 10
  {
    (d as char) + '0'
  }

  function Digits(n: nat): (s: string)
    ensures s != [] && forall i :: 0 <= i < |s| ==> '0' <= s[i] <= '9'
  {
    if n < 10 then [Digit(n)] else Digits(n / 10) + [Digit(n % 10)]
  }

  function Decimal(n: int): string
  {
    if n < 0 then "-" + Digits(-n) else Digits(n)
  }

  /** The value of a string of digits. */
  function Value(s: string): (n: Option<nat>)
  {
    if s == [] then None
    else if !('0' <= s[|s| - 1] <= '9') then None
    else if |s| == 1 then Some((s[0] - '0') as nat)
    else match Value(s[..|s| - 1])
      case None => None
      case Some(front) => Some(10 * front + (s[|s| - 1] - '0') as nat)
  }

  /** strconv.Atoi: an optional sign and digits, within the 64-bit range. */
  function Atoi(s: string): Option<int>
  {
    var negative := s != [] && s[0] == '-';
    var digits := if s != [] && (s[0] == '-' || s[0] == '+') then s[1..] else s;
    match Value(digits)
    case None => None
    case Some(n) =>
      var k: int := n;
      var v: int := if negative then -k else k;
      if MIN_INT <= v <= MAX_INT then Some(v) else None
  }

  lemma {:induction false} ValueOfDigits(n: nat)
    ensures Value(Digits(n)) == Some(n)
  {
    if n >= 10 {
      ValueOfDigits(n / 10);
      assert Digits(n)[..|Digits(n)| - 1] == Digits(n / 10);
    }
  }

  /** Parsing undoes printing for every 64-bit number. */
  lemma {:induction false} AtoiOfDecimal(n: int)
    ensures Atoi(Decimal(n)) == if MIN_INT <= n <= MAX_INT then Some(n) else None
  {
    if n < 0 {
      ValueOfDigits(-n);
      assert Decimal(n)[1..] == Digits(-n);
    } else {
      ValueOfDigits(n);
      assert Digits(n)[0] != '-' && Digits(n)[0] != '+';
    }
  }

  lemma {:induction false} LargestPrinted()
    ensures Decimal(MAX_INT) == "9223372036854775807"
  {
    ThreeMore(9, 2, 2, 3);
    ThreeMore(9223, 3, 7, 2);
    ThreeMore(9223372, 0, 3, 6);
    ThreeMore(9223372036, 8, 5, 4);
    ThreeMore(9223372036854, 7, 7, 5);
    ThreeMore(9223372036854775, 8, 0, 7);
  }

  /** Three more digits are printed after those of the number before them. */
  lemma {:induction false} ThreeMore(n: nat, a: nat, b: nat, c: nat)
    requires n > 0 && a < 10 && b < 10 && c < 10
    ensures Digits(1000 * n + 100 * a + 10 * b + c) == Digits(n) + [Digit(a), Digit(b), Digit(c)]
  {
    var m := 10 * n + a;
    assert Digits(m) == Digits(n) + [Digit(a)];
    assert Digits(10 * m + b) == Digits(m) + [Digit(b)];
    assert Digits(10 * (10 * m + b) + c) == Digits(10 * m + b) + [Digit(c)];
  }
}
