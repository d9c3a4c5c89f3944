/**
 Prices in whole microdollars: the conservative cost reserved before a call and the actual cost after it, in 64-bit
 arithmetic.
 */
module Pricing {
  import opened Common

  const MAX_INT64: int := 0x7FFF_FFFF_FFFF_FFFF
  const MILLION: int := 1_000_000

  /** The largest scaled sum that can still be rounded up without overflow. */
  const LIMIT: int := MAX_INT64 - 999_999

  /** Prices per million tokens. */
  datatype Rates = Rates(input: int, output: int, cacheRead: int, cacheWrite: int, cacheWrite1h: int)

  datatype Tier = Tier(above: int, rates: Rates)

  datatype ModelPrice = ModelPrice(base: Rates, tiers: seq<Tier>)

  /** Actual usage: the prompt as reported, its uncached part, and the rest; 1-hour cache writes are among the writes. */
  datatype Usage = Usage(prompt: int, uncached: int, completion: int, cacheReads: int, cacheWrites: int, writes1h: int)

  datatype Term = Term(tokens: int, rate: int)

  // ---------------------------------------------------------------------------------------------
  // Sums

  /** The true sum of tokens times rate. */
  ghost function Sum(terms: seq<Term>): int
  {
    if terms == [] then 0 else Sum(terms[..|terms| - 1]) + terms[|terms| - 1].tokens * terms[|terms| - 1].rate
  }

  ghost predicate NonNegative(terms: seq<Term>)
  {
    forall i :: 0 <= i < |terms| ==> terms[i].tokens >= 0 && terms[i].rate >= 0
  }

  lemma {:induction false} SumGrows(terms: seq<Term>, i: nat)
    requires i <= |terms| && NonNegative(terms)
    ensures 0 <= Sum(terms[..i]) <= Sum(terms)
    decreases |terms| - i
  {
    if i < |terms| {
      SumGrows(terms, i + 1);
      assert terms[..i + 1][..i] == terms[..i];
      assert terms[i].tokens * terms[i].rate >= 0;
      SumIsNonNegative(terms[..i]);
    } else {
      assert terms[..i] == terms;
      SumIsNonNegative(terms);
    }
  }

  lemma {:induction false} SumIsNonNegative(terms: seq<Term>)
    requires NonNegative(terms)
    ensures Sum(terms) >= 0
  {
    if terms != [] {
      SumIsNonNegative(terms[..|terms| - 1]);
      var t := terms[|terms| - 1];
      assert t.tokens * t.rate >= 0;
    }
  }

  /** Sum with overflow checks. On non-negative terms it is exact, and fails exactly when the true sum is above LIMIT. */
  method SumScaled(terms: seq<Term>) returns (total: Option<int>)
    ensures total.Some? <==> NonNegative(terms) && Sum(terms) <= LIMIT
    ensures total.Some? ==> total.value == Sum(terms) && 0 <= total.value <= LIMIT
  {
    var sum := 0;
    for i := 0 to |terms|
      invariant NonNegative(terms[..i])
      invariant sum == Sum(terms[..i]) && 0 <= sum <= LIMIT
    {
      assert terms[..i + 1][..i] == terms[..i];
      var tokens, rate := terms[i].tokens, terms[i].rate;
      if tokens < 0 || rate < 0 { return None; }
      if tokens == 0 || rate == 0 {
        assert tokens * rate == 0;
        continue;
      }
      if tokens > MAX_INT64 / rate {
        TooLarge(tokens, rate);
        StaysAbove(terms, i + 1);
        return None;
      }
      NoOverflow(tokens, rate);
      var product := tokens * rate;
      if product > MAX_INT64 - 999_999 - sum {
        StaysAbove(terms, i + 1);
        return None;
      }
      sum := sum + product;
    }
    assert terms[..|terms|] == terms;
    return Some(sum);
  }

  lemma {:induction false} TooLarge(tokens: int, rate: int)
    requires rate > 0 && tokens > MAX_INT64 / rate
    ensures tokens * rate > MAX_INT64
  {
    var q := MAX_INT64 / rate;
    assert tokens * rate >= (q + 1) * rate;
    assert MAX_INT64 == q * rate + MAX_INT64 % rate;
    assert (q + 1) * rate == q * rate + rate;
  }

  /** The product that sumScaled computes stays within 64 bits. */
  lemma {:induction false} NoOverflow(tokens: int, rate: int)
    requires rate > 0 && 0 <= tokens <= MAX_INT64 / rate
    ensures 0 <= tokens * rate <= MAX_INT64
  {
    var q := MAX_INT64 / rate;
    assert tokens * rate <= q * rate;
    assert MAX_INT64 == q * rate + MAX_INT64 % rate;
  }

  /** A partial sum above LIMIT, or a bad term, cannot be made good by later terms. */
  lemma {:induction false} StaysAbove(terms: seq<Term>, i: nat)
    requires i <= |terms| && Sum(terms[..i]) > LIMIT
    ensures NonNegative(terms) ==> Sum(terms) > LIMIT
  {
    if NonNegative(terms) { SumGrows(terms, i); }
  }

  // ---------------------------------------------------------------------------------------------
  // Rates and costs

  /** The rates billed for a prompt: those of the last tier it exceeds. */
  function RatesFor(p: ModelPrice, prompt: int): Rates
  {
    Selected(p, prompt, |p.tiers|)
  }

  function Selected(p: ModelPrice, prompt: int, n: nat): Rates
    requires n <= |p.tiers|
  {
    if n == 0 then p.base
    else if prompt > p.tiers[n - 1].above then p.tiers[n - 1].rates
    else Selected(p, prompt, n - 1)
  }

  method SelectRates(p: ModelPrice, prompt: int) returns (r: Rates)
    ensures r == RatesFor(p, prompt)
  {
    r := p.base;
    for i := 0 to |p.tiers|
      invariant r == Selected(p, prompt, i)
    {
      if prompt > p.tiers[i].above { r := p.tiers[i].rates; }
    }
  }

  function ReserveTerms(p: ModelPrice, input: int, output: int): seq<Term>
  {
    var r := RatesFor(p, input);
    [Term(input, r.input), Term(output, r.output)]
  }

  /** PromptWindowTokens: everything the model read. */
  function Window(u: Usage): int
  {
    u.uncached + u.cacheReads + u.cacheWrites
  }

  function LongWrites(u: Usage): int
  {
    var w := if u.writes1h > 0 then u.writes1h else 0;
    if w < u.cacheWrites then w else u.cacheWrites
  }

  function UsageTerms(p: ModelPrice, u: Usage): seq<Term>
  {
    var r := RatesFor(p, Window(u));
    [Term(u.uncached, r.input), Term(u.completion, r.output), Term(u.cacheReads, r.cacheRead),
     Term(u.cacheWrites - LongWrites(u), r.cacheWrite), Term(LongWrites(u), r.cacheWrite1h)]
  }

  /** c is the least number of whole units that is at least sum millionths. */
  ghost predicate RoundsUp(sum: int, c: int)
  {
    (c - 1) * MILLION < sum <= c * MILLION
  }

  /** c is sum millionths to the nearest unit, halves upwards. */
  ghost predicate RoundsToNearest(sum: int, c: int)
  {
    c * MILLION - 500_000 <= sum < c * MILLION + 500_000
  }

  ghost function CostOf(p: ModelPrice, input: int, output: int): Option<int>
  {
    var terms := ReserveTerms(p, input, output);
    if NonNegative(terms) && Sum(terms) <= LIMIT then Some((Sum(terms) + 999_999) / MILLION) else None
  }

  ghost function ActualCostOf(p: ModelPrice, u: Usage): Option<int>
  {
    var terms := UsageTerms(p, u);
    if NonNegative(terms) && Sum(terms) <= LIMIT then Some((Sum(terms) + 500_000) / MILLION) else None
  }

  /** Both costs are 64-bit amounts, rounded as they should be; the first rounds up, the second to the nearest. */
  lemma {:induction false} CostsAreRounded(p: ModelPrice, input: int, output: int, u: Usage)
    ensures CostOf(p, input, output).Some? ==>
      RoundsUp(Sum(ReserveTerms(p, input, output)), CostOf(p, input, output).value) && 0 <= CostOf(p, input, output).value <= MAX_INT64
    ensures ActualCostOf(p, u).Some? ==>
      RoundsToNearest(Sum(UsageTerms(p, u)), ActualCostOf(p, u).value) && 0 <= ActualCostOf(p, u).value <= MAX_INT64
  {
    hide Sum, NonNegative, ReserveTerms, UsageTerms;
    if CostOf(p, input, output).Some? { SumIsNonNegative(ReserveTerms(p, input, output)); }
    if ActualCostOf(p, u).Some? { SumIsNonNegative(UsageTerms(p, u)); }
  }

  lemma {:induction false} CostIsAmount(p: ModelPrice, input: int, output: int)
    ensures CostOf(p, input, output).Some? ==> 0 <= CostOf(p, input, output).value <= MAX_INT64
  {
    hide *;
    CostsAreRounded(p, input, output, Usage(0, 0, 0, 0, 0, 0));
  }

  lemma {:induction false} ActualIsAmount(p: ModelPrice, u: Usage)
    ensures ActualCostOf(p, u).Some? ==> 0 <= ActualCostOf(p, u).value <= MAX_INT64
  {
    hide *;
    CostsAreRounded(p, 0, 0, u);
  }

  /** cost: input and maximum output at full rates, rounded up. */
  method Cost(p: ModelPrice, input: int, output: int) returns (c: Option<int>)
    ensures c == CostOf(p, input, output)
    ensures c.Some? <==> NonNegative(ReserveTerms(p, input, output)) && Sum(ReserveTerms(p, input, output)) <= 0x7FFF_FFFF_FFFF_FFFF - 999_999
    ensures c.Some? ==> RoundsUp(Sum(ReserveTerms(p, input, output)), c.value) && 0 <= c.value <= MAX_INT64
    ensures c.Some? ==> RoundsUp(input * RatesFor(p, input).input + output * RatesFor(p, input).output, c.value)
  {
    SumOfTwo(Term(input, RatesFor(p, input).input), Term(output, RatesFor(p, input).output));
    ghost var terms := ReserveTerms(p, input, output);
    assert terms[0].tokens == input && terms[1].tokens == output;
    if input < 0 || output < 0 { return None; }
    var rates := SelectRates(p, input);
    var scaled := SumScaled([Term(input, rates.input), Term(output, rates.output)]);
    if scaled.None? { return None; }
    return Some((scaled.value + 999_999) / 1_000_000);
  }

  /** costWithCache: actual usage at each part's own rate, rounded to the nearest microdollar. */
  method CostWithCache(p: ModelPrice, u: Usage) returns (c: Option<int>)
    ensures c == ActualCostOf(p, u)
    ensures c.Some? <==> NonNegative(UsageTerms(p, u)) && Sum(UsageTerms(p, u)) <= 0x7FFF_FFFF_FFFF_FFFF - 999_999
    ensures c.Some? ==> RoundsToNearest(Sum(UsageTerms(p, u)), c.value) && 0 <= c.value <= MAX_INT64
    ensures c.Some? ==>
      var r, long := RatesFor(p, u.uncached + u.cacheReads + u.cacheWrites), LongWrites(u);
      && (long == if u.writes1h <= 0 then 0 else if u.writes1h <= u.cacheWrites then u.writes1h else u.cacheWrites)
      && RoundsToNearest(u.uncached * r.input + u.completion * r.output + u.cacheReads * r.cacheRead
                         + (u.cacheWrites - long) * r.cacheWrite + long * r.cacheWrite1h, c.value)
  {
    ghost var r0 := RatesFor(p, Window(u));
    SumOfFive(Term(u.uncached, r0.input), Term(u.completion, r0.output), Term(u.cacheReads, r0.cacheRead),
              Term(u.cacheWrites - LongWrites(u), r0.cacheWrite), Term(LongWrites(u), r0.cacheWrite1h));
    var rates := SelectRates(p, Window(u));
    var write1h := LongWrites(u);
    var scaled := SumScaled([Term(u.uncached, rates.input), Term(u.completion, rates.output), Term(u.cacheReads, rates.cacheRead),
                             Term(u.cacheWrites - write1h, rates.cacheWrite), Term(write1h, rates.cacheWrite1h)]);
    if scaled.None? { return None; }
    return Some((scaled.value + 500_000) / 1_000_000);
  }

  // ---------------------------------------------------------------------------------------------
  // A reservation covers the call

  predicate AtMost(a: Rates, b: Rates)
  {
    a.input <= b.input && a.output <= b.output
  }

  /** Rates never fall from the base to the first tier, nor from one tier to a later one. */
  ghost predicate TiersRise(p: ModelPrice)
  {
    && (forall i :: 0 <= i < |p.tiers| ==> AtMost(p.base, p.tiers[i].rates))
    && (forall i, j :: 0 <= i <= j < |p.tiers| ==> AtMost(p.tiers[i].rates, p.tiers[j].rates))
  }

  /** Cached tokens never cost more than uncached ones. */
  predicate CacheIsCheaper(r: Rates)
  {
    0 <= r.cacheRead <= r.input && 0 <= r.cacheWrite <= r.input && 0 <= r.cacheWrite1h <= r.input && 0 <= r.output
  }

  ghost predicate CachesAreCheaper(p: ModelPrice)
  {
    CacheIsCheaper(p.base) && forall i :: 0 <= i < |p.tiers| ==> CacheIsCheaper(p.tiers[i].rates)
  }

  /** A longer prompt is billed at the same rates or at those of a later tier. */
  lemma {:induction false} RatesRise(p: ModelPrice, small: int, large: int, n: nat)
    requires TiersRise(p) && small <= large && n <= |p.tiers|
    ensures AtMost(Selected(p, small, n), Selected(p, large, n))
  {
    if n > 0 && large <= p.tiers[n - 1].above {
      RatesRise(p, small, large, n - 1);
    } else if n > 0 && small <= p.tiers[n - 1].above {
      SelectedIsEarlier(p, small, n - 1);
    }
  }

  lemma {:induction false} SelectedIsEarlier(p: ModelPrice, prompt: int, n: nat)
    requires n <= |p.tiers|
    ensures Selected(p, prompt, n) == p.base || exists i :: 0 <= i < n && Selected(p, prompt, n) == p.tiers[i].rates
  {
    if n > 0 && prompt <= p.tiers[n - 1].above { SelectedIsEarlier(p, prompt, n - 1); }
  }

  ghost predicate Reported(u: Usage)
  {
    u.uncached >= 0 && u.completion >= 0 && u.cacheReads >= 0 && u.cacheWrites >= 0
  }

  lemma {:induction false} SumOfTwo(a: Term, b: Term)
    ensures Sum([a, b]) == a.tokens * a.rate + b.tokens * b.rate
  {
    assert [a, b][..1] == [a] && [a][..0] == [];
    assert Sum([a]) == a.tokens * a.rate;
  }

  lemma {:induction false} SumOfFive(a: Term, b: Term, c: Term, d: Term, e: Term)
    ensures Sum([a, b, c, d, e]) == a.tokens * a.rate + b.tokens * b.rate + c.tokens * c.rate + d.tokens * d.rate + e.tokens * e.rate
  {
    assert [a, b, c, d, e][..4] == [a, b, c, d] && [a, b, c, d][..3] == [a, b, c] && [a, b, c][..2] == [a, b];
    SumOfTwo(a, b);
    assert Sum([a, b, c]) == Sum([a, b]) + c.tokens * c.rate;
    assert Sum([a, b, c, d]) == Sum([a, b, c]) + d.tokens * d.rate;
    assert Sum([a, b, c, d, e]) == Sum([a, b, c, d]) + e.tokens * e.rate;
  }

  lemma {:induction false} TimesAtMost(n: int, a: int, b: int)
    requires n >= 0 && a <= b
    ensures n * a <= n * b
  {
  }

  lemma {:induction false} MoreTokens(m: int, n: int, a: int)
    requires m <= n && a >= 0
    ensures m * a <= n * a
  {
  }

  /** The usage's scaled cost is at most the reservation's. */
  lemma {:induction false} UsageIsWithin(p: ModelPrice, u: Usage, input: int, output: int)
    requires TiersRise(p) && CachesAreCheaper(p) && Reported(u) && Window(u) <= input && u.completion <= output
    ensures NonNegative(UsageTerms(p, u)) && NonNegative(ReserveTerms(p, input, output))
    ensures Sum(UsageTerms(p, u)) <= Sum(ReserveTerms(p, input, output))
  {
    var r, s := RatesFor(p, Window(u)), RatesFor(p, input);
    RatesRise(p, Window(u), input, |p.tiers|);
    SelectedIsEarlier(p, Window(u), |p.tiers|);
    SelectedIsEarlier(p, input, |p.tiers|);
    var long := LongWrites(u);
    var short := u.cacheWrites - long;
    SumOfTwo(Term(input, s.input), Term(output, s.output));
    SumOfFive(Term(u.uncached, r.input), Term(u.completion, r.output), Term(u.cacheReads, r.cacheRead), Term(short, r.cacheWrite), Term(long, r.cacheWrite1h));
    TimesAtMost(u.cacheReads, r.cacheRead, r.input);
    TimesAtMost(short, r.cacheWrite, r.input);
    TimesAtMost(long, r.cacheWrite1h, r.input);
    Gather(u.uncached, u.cacheReads, short, long, r.input);
    TimesAtMost(Window(u), r.input, s.input);
    MoreTokens(Window(u), input, s.input);
    TimesAtMost(u.completion, r.output, s.output);
    MoreTokens(u.completion, output, s.output);
  }

  lemma {:induction false} Gather(a: int, b: int, c: int, d: int, rate: int)
    ensures a * rate + b * rate + c * rate + d * rate == (a + b + c + d) * rate
  {
  }

  /**
   A reservation covers the call: if usage stays within the estimate, tiers do not fall and caching is not dearer, the
   actual cost can be computed whenever the reservation could, and is at most the reservation.
   */
  lemma {:induction false} ReservationCovers(p: ModelPrice, u: Usage, input: int, output: int)
    requires TiersRise(p) && CachesAreCheaper(p) && Reported(u) && Window(u) <= input && u.completion <= output
    requires CostOf(p, input, output).Some?
    ensures ActualCostOf(p, u).Some? && ActualCostOf(p, u).value <= CostOf(p, input, output).value
  {
    hide Sum, NonNegative, ReserveTerms, UsageTerms;
    UsageIsWithin(p, u, input, output);
  }
}
