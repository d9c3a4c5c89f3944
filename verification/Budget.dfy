/**
 Reserving a call's cost before it is made and settling it afterwards, under a spending cap for each session.
 Amounts are 64-bit and wrap around.
 */
module Budgets {
  import opened Common
  import opened Pricing

  const MIN_INT64: int := -0x8000_0000_0000_0000
  const TWO64: int := 0x1_0000_0000_0000_0000

  function Wrap(n: int): int
  {
    (n - MIN_INT64) % TWO64 + MIN_INT64
  }

  datatype SessionCost = SessionCost(input: int, output: int, cacheReads: int, cacheWrites: int, spent: int, reserved: int, unpriced: int)

  datatype Reservation = Reservation(session: string, price: ModelPrice, cost: int)

  /** The tracker's accounts: per session, the outstanding reservations by id, and the last id given out. */
  datatype Books = Books(costs: map<string, SessionCost>, reservations: map<nat, Reservation>, last: nat)

  const EMPTY: Books := Books(map[], map[], 0)

  datatype Result<+T> = Ok(value: T) | Err(error: Error)
  datatype Error = UnknownModel | BadCost | OverCap | BadUsage | UnknownReservation

  function CostFor(b: Books, session: string): SessionCost
  {
    if session in b.costs then b.costs[session] else SessionCost(0, 0, 0, 0, 0, 0, 0)
  }

  function ExceedsCap(spent: int, reserved: int, requested: int, cap: int): bool
  {
    spent > Wrap(cap - reserved) || requested > Wrap(Wrap(cap - spent) - reserved)
  }

  /** Reserve: the new id and accounts, or why not. */
  ghost function Reserved(b: Books, cap: int, session: string, price: Option<ModelPrice>, input: int, output: int): Result<(nat, Books)>
  {
    if price.None? then Err(UnknownModel)
    else match CostOf(price.value, input, output)
      case None => Err(BadCost)
      case Some(cost) =>
        var c := CostFor(b, session);
        if cap > 0 && ExceedsCap(c.spent, c.reserved, cost, cap) then Err(OverCap)
        else
          var id := b.last + 1;
          Ok((id, Books(b.costs[session := c.(reserved := Wrap(c.reserved + cost))],
                        b.reservations[id := Reservation(session, price.value, cost)], id)))
  }

  function WithUsage(c: SessionCost, u: Usage): SessionCost
  {
    c.(input := Wrap(c.input + u.uncached), output := Wrap(c.output + u.completion),
       cacheReads := Wrap(c.cacheReads + u.cacheReads), cacheWrites := Wrap(c.cacheWrites + u.cacheWrites))
  }

  predicate BadlyReported(u: Usage)
  {
    u.prompt < 0 || u.completion < 0 || u.cacheReads < 0 || u.cacheWrites < 0
  }

  /** ReconcileUsage: the reservation is replaced by the actual cost. */
  ghost function Settled(b: Books, id: nat, u: Usage): Result<Books>
  {
    if BadlyReported(u) then Err(BadUsage)
    else if id !in b.reservations then Err(UnknownReservation)
    else
      var r := b.reservations[id];
      match ActualCostOf(r.price, u)
      case None => Err(BadCost)
      case Some(actual) =>
        var c := CostFor(b, r.session);
        var paid := c.(reserved := Wrap(c.reserved - r.cost), spent := Wrap(c.spent + actual));
        Ok(Books(b.costs[r.session := WithUsage(paid, u)], b.reservations - {id}, b.last))
  }

  function Positive(n: int): int
  {
    if n > 0 then n else 0
  }

  /** RecordUnpriced: tokens without a cost. */
  function Unpriced(b: Books, session: string, u: Usage): Books
  {
    var c := CostFor(b, session);
    var counted := Usage(u.prompt, Positive(u.uncached), Positive(u.completion), Positive(u.cacheReads), Positive(u.cacheWrites), u.writes1h);
    b.(costs := b.costs[session := WithUsage(c, counted).(unpriced := Wrap(c.unpriced + 1))])
  }

  class Tracker {
    const usdCap: int
    var costs: map<string, SessionCost>
    var reservations: map<nat, Reservation>
    var nextReserveID: nat

    function State(): Books
      reads this
    {
      Books(costs, reservations, nextReserveID)
    }

    constructor (usdCap: int)
      ensures this.usdCap == usdCap && State() == EMPTY
    {
      this.usdCap := usdCap;
      costs, reservations, nextReserveID := map[], map[], 0;
    }

    method Reserve(session: string, price: Option<ModelPrice>, input: int, output: int) returns (r: Result<nat>)
      modifies this
      ensures match Reserved(old(State()), usdCap, session, price, input, output)
              case Err(e) => r == Err(e) && State() == old(State())
              case Ok((id, b)) => r == Ok(id) && State() == b
      ensures r.Ok? <==> (
        && price.Some? && CostOf(price.value, input, output).Some?
        && var c, cost := CostFor(old(State()), session), CostOf(price.value, input, output).value;
           usdCap > 0 ==> !ExceedsCap(c.spent, c.reserved, cost, usdCap))
    {
      if price.None? { return Err(UnknownModel); }
      var cost := Cost(price.value, input, output);
      if cost.None? { return Err(BadCost); }
      var current := CostFor(State(), session);
      if usdCap > 0 && ExceedsCap(current.spent, current.reserved, cost.value, usdCap) { return Err(OverCap); }
      nextReserveID := nextReserveID + 1;
      var id := nextReserveID;
      costs := costs[session := current.(reserved := Wrap(current.reserved + cost.value))];
      reservations := reservations[id := Reservation(session, price.value, cost.value)];
      return Ok(id);
    }

    method ReconcileUsage(id: nat, u: Usage) returns (error: Option<Error>)
      modifies this
      ensures match Settled(old(State()), id, u)
              case Err(e) => error == Some(e) && State() == old(State())
              case Ok(b) => error == None && State() == b
      ensures error == None <==> (
        && u.prompt >= 0 && u.completion >= 0 && u.cacheReads >= 0 && u.cacheWrites >= 0
        && id in old(reservations) && ActualCostOf(old(reservations)[id].price, u).Some?)
      ensures error == None ==> reservations == old(reservations) - {id}
    {
      if u.prompt < 0 || u.completion < 0 || u.cacheReads < 0 || u.cacheWrites < 0 { return Some(BadUsage); }
      if id !in reservations { return Some(UnknownReservation); }
      var reserved := reservations[id];
      var actual := CostWithCache(reserved.price, u);
      if actual.None? { return Some(BadCost); }
      var current := CostFor(State(), reserved.session);
      current := current.(reserved := Wrap(current.reserved - reserved.cost), spent := Wrap(current.spent + actual.value));
      costs := costs[reserved.session := WithUsage(current, u)];
      reservations := reservations - {id};
      return None;
    }

    method RecordUnpriced(session: string, u: Usage)
      modifies this`costs
      ensures State() == Unpriced(old(State()), session, u)
      ensures CostFor(State(), session).spent == CostFor(old(State()), session).spent
      ensures CostFor(State(), session).reserved == CostFor(old(State()), session).reserved
      ensures CostFor(State(), session).unpriced == Wrap(CostFor(old(State()), session).unpriced + 1)
      ensures forall s :: s != session ==> CostFor(State(), s) == CostFor(old(State()), s)
    {
      var current := CostFor(State(), session);
      var counted := Usage(u.prompt, Positive(u.uncached), Positive(u.completion), Positive(u.cacheReads), Positive(u.cacheWrites), u.writes1h);
      costs := costs[session := WithUsage(current, counted).(unpriced := Wrap(current.unpriced + 1))];
    }
  }

  // ---------------------------------------------------------------------------------------------
  // Runs

  /** A call to the tracker; a price of None is a model without one. */
  datatype Event =
    | Reserve(session: string, price: Option<ModelPrice>, input: int, output: int)
    | Settle(id: nat, usage: Usage)
    | Record(session: string, usage: Usage)

  /** What was settled: which reservation, for how much, and the actual cost. */
  datatype Settlement = Settlement(id: nat, session: string, reserved: int, actual: int)

  /** The accounts and every settlement so far, oldest first. */
  datatype Ledger = Ledger(books: Books, settled: seq<Settlement>)

  ghost function Next(l: Ledger, cap: int, e: Event): Ledger
  {
    match e
    case Reserve(session, price, input, output) =>
      (match Reserved(l.books, cap, session, price, input, output)
       case Err(_) => l
       case Ok((_, b)) => l.(books := b))
    case Settle(id, u) =>
      (match Settled(l.books, id, u)
       case Err(_) => l
       case Ok(b) =>
         var r := l.books.reservations[id];
         Ledger(b, l.settled + [Settlement(id, r.session, r.cost, ActualCostOf(r.price, u).value)]))
    case Record(session, u) => l.(books := Unpriced(l.books, session, u))
  }

  ghost function After(cap: int, events: seq<Event>): Ledger
  {
    if events == [] then Ledger(EMPTY, [])
    else Next(After(cap, events[..|events| - 1]), cap, events[|events| - 1])
  }

  /** A session's outstanding reservations with ids up to n. */
  ghost function Outstanding(rs: map<nat, Reservation>, session: string, n: nat): int
  {
    if n == 0 then 0
    else Outstanding(rs, session, n - 1) + if n in rs && rs[n].session == session then rs[n].cost else 0
  }

  /** What a session's settled calls cost. */
  ghost function Spent(settled: seq<Settlement>, session: string): int
  {
    if settled == [] then 0
    else
      var s := settled[|settled| - 1];
      Spent(settled[..|settled| - 1], session) + if s.session == session then s.actual else 0
  }

  /** By how much a session's settled calls cost more than was reserved for them. */
  ghost function Overrun(settled: seq<Settlement>, session: string): int
  {
    if settled == [] then 0
    else
      var s := settled[|settled| - 1];
      Overrun(settled[..|settled| - 1], session) + if s.session == session && s.actual > s.reserved then s.actual - s.reserved else 0
  }

  ghost predicate Numbered(l: Ledger)
  {
    && (forall id :: id in l.books.reservations ==> 1 <= id <= l.books.last && l.books.reservations[id].cost >= 0)
    && (forall i :: 0 <= i < |l.settled| ==> l.settled[i].id <= l.books.last && l.settled[i].id !in l.books.reservations && l.settled[i].actual >= 0)
    && (forall i, j :: 0 <= i < j < |l.settled| ==> l.settled[i].id != l.settled[j].id)
  }

  /** A session's recorded amounts are the true sums, wrapped. */
  ghost predicate Accounted(l: Ledger, session: string)
  {
    var c := CostFor(l.books, session);
    && c.reserved == Wrap(Outstanding(l.books.reservations, session, l.books.last))
    && c.spent == Wrap(Spent(l.settled, session))
  }

  /** The true sums stay within the cap plus the overruns, as long as that is a 64-bit amount. */
  ghost predicate Capped(l: Ledger, cap: int, session: string)
  {
    cap > 0 && cap + Overrun(l.settled, session) <= MAX_INT64 ==>
      Spent(l.settled, session) + Outstanding(l.books.reservations, session, l.books.last) <= cap + Overrun(l.settled, session)
  }

  ghost predicate Inv(l: Ledger, cap: int)
  {
    Numbered(l) && forall session :: Accounted(l, session) && Capped(l, cap, session)
  }

  lemma {:induction false} WrapAdds(a: int, b: int)
    ensures Wrap(Wrap(a) + b) == Wrap(a + b)
    ensures Wrap(b - Wrap(a)) == Wrap(b - a)
  {
  }

  lemma {:induction false} WrapIsExact(n: int)
    ensures Wrap(n) == n <==> MIN_INT64 <= n <= MAX_INT64
  {
  }

  lemma {:induction false} OutstandingAdd(rs: map<nat, Reservation>, id: nat, r: Reservation, session: string, n: nat)
    requires id > n
    ensures Outstanding(rs[id := r], session, n) == Outstanding(rs, session, n)
  {
    if n > 0 { OutstandingAdd(rs, id, r, session, n - 1); }
  }

  lemma {:induction false} OutstandingRemove(rs: map<nat, Reservation>, id: nat, session: string, n: nat)
    requires id in rs
    ensures Outstanding(rs - {id}, session, n) ==
      Outstanding(rs, session, n) - if 0 < id <= n && rs[id].session == session then rs[id].cost else 0
  {
    if n > 0 { OutstandingRemove(rs, id, session, n - 1); }
  }

  lemma {:induction false} AmountsAreNonNegative(l: Ledger, session: string, n: nat)
    requires forall id :: id in l.books.reservations ==> l.books.reservations[id].cost >= 0
    ensures Outstanding(l.books.reservations, session, n) >= 0
  {
    if n > 0 { AmountsAreNonNegative(l, session, n - 1); }
  }

  lemma {:induction false} SettledAreNonNegative(settled: seq<Settlement>, session: string)
    requires forall i :: 0 <= i < |settled| ==> settled[i].actual >= 0
    ensures Spent(settled, session) >= 0 && Overrun(settled, session) >= 0
  {
    if settled != [] { SettledAreNonNegative(settled[..|settled| - 1], session); }
  }

  /** The cap check is exact as long as the amounts are: it passes exactly when the new total stays within the cap. */
  lemma {:induction false} CapCheckIsExact(spent: int, reserved: int, requested: int, cap: int)
    requires spent >= 0 && reserved >= 0 && 0 <= requested <= MAX_INT64 && spent + reserved <= MAX_INT64 && 0 < cap <= MAX_INT64
    ensures !ExceedsCap(Wrap(spent), Wrap(reserved), requested, cap) <==> spent + reserved + requested <= cap
  {
    WrapIsExact(spent);
    WrapIsExact(reserved);
    WrapIsExact(cap - reserved);
    WrapIsExact(cap - spent);
    if spent <= cap - reserved { WrapIsExact(cap - spent - reserved); }
  }

  /** The accounts with one more reservation. */
  function Holding(b: Books, r: Reservation): Books
  {
    var c := CostFor(b, r.session);
    Books(b.costs[r.session := c.(reserved := Wrap(c.reserved + r.cost))], b.reservations[b.last + 1 := r], b.last + 1)
  }

  lemma {:induction false} ReservedShape(b: Books, cap: int, session: string, price: Option<ModelPrice>, input: int, output: int)
    ensures Reserved(b, cap, session, price, input, output).Ok? ==>
      && price.Some? && CostOf(price.value, input, output).Some?
      && var cost := CostOf(price.value, input, output).value;
         && Reserved(b, cap, session, price, input, output).value == (b.last + 1, Holding(b, Reservation(session, price.value, cost)))
         && 0 <= cost <= MAX_INT64
         && (cap > 0 ==> !ExceedsCap(CostFor(b, session).spent, CostFor(b, session).reserved, cost, cap))
  {
    hide CostOf, ExceedsCap, Wrap, CostFor;
    if price.Some? { CostIsAmount(price.value, input, output); }
  }

  lemma {:induction false} HoldingAt(l: Ledger, cap: int, r: Reservation, s: string)
    requires Accounted(l, s) && Capped(l, cap, s) && cap <= MAX_INT64 && 0 <= r.cost <= MAX_INT64
    requires Outstanding(l.books.reservations, s, l.books.last) >= 0 && Spent(l.settled, s) >= 0 && Overrun(l.settled, s) >= 0
    requires cap > 0 ==> !ExceedsCap(CostFor(l.books, r.session).spent, CostFor(l.books, r.session).reserved, r.cost, cap)
    ensures Accounted(l.(books := Holding(l.books, r)), s) && Capped(l.(books := Holding(l.books, r)), cap, s)
  {
    hide Wrap, ExceedsCap, Spent, Overrun;
    OutstandingAdd(l.books.reservations, l.books.last + 1, r, s, l.books.last);
    var out, spent, over := Outstanding(l.books.reservations, s, l.books.last), Spent(l.settled, s), Overrun(l.settled, s);
    if s == r.session {
      WrapAdds(out, r.cost);
      if cap > 0 && cap + over <= MAX_INT64 {
        OverrunLeavesRoom(spent, out, r.cost, cap, over);
      }
    }
  }

  lemma {:induction false} OverrunLeavesRoom(spent: int, reserved: int, requested: int, cap: int, over: int)
    requires spent >= 0 && reserved >= 0 && 0 <= requested <= MAX_INT64 && over >= 0 && spent + reserved <= cap + over <= MAX_INT64
    requires 0 < cap <= MAX_INT64 && !ExceedsCap(Wrap(spent), Wrap(reserved), requested, cap)
    ensures spent + reserved + requested <= cap + over
  {
    hide Wrap, ExceedsCap;
    CapCheckIsExact(spent, reserved, requested, cap);
  }

  lemma {:induction false} HoldingIsNumbered(l: Ledger, r: Reservation)
    requires Numbered(l) && r.cost >= 0
    ensures Numbered(l.(books := Holding(l.books, r)))
  {
    hide Wrap;
  }

  lemma {:induction false} ReserveKeeps(l: Ledger, cap: int, session: string, price: Option<ModelPrice>, input: int, output: int)
    requires Inv(l, cap) && cap <= MAX_INT64 && Reserved(l.books, cap, session, price, input, output).Ok?
    ensures Inv(l.(books := Reserved(l.books, cap, session, price, input, output).value.1), cap)
  {
    hide Wrap, ExceedsCap, CostOf, Accounted, Capped, Reserved, Holding;
    ReservedShape(l.books, cap, session, price, input, output);
    var r := Reservation(session, price.value, CostOf(price.value, input, output).value);
    HoldingIsNumbered(l, r);
    forall s ensures Accounted(l.(books := Holding(l.books, r)), s) && Capped(l.(books := Holding(l.books, r)), cap, s) {
      AmountsAreNonNegative(l, s, l.books.last);
      SettledAreNonNegative(l.settled, s);
      HoldingAt(l, cap, r, s);
    }
  }

  lemma {:induction false} SettleKeeps(l: Ledger, cap: int, id: nat, u: Usage)
    requires Inv(l, cap) && Settled(l.books, id, u).Ok?
    ensures Inv(Next(l, cap, Settle(id, u)), cap)
  {
    hide Wrap, ActualCostOf;
    var r := l.books.reservations[id];
    var actual := ActualCostOf(r.price, u).value;
    ActualIsAmount(r.price, u);
    var next := Next(l, cap, Settle(id, u));
    var entry := Settlement(id, r.session, r.cost, actual);
    assert next.settled == l.settled + [entry] && next.settled[..|l.settled|] == l.settled;
    forall s ensures Accounted(next, s) && Capped(next, cap, s) {
      assert Accounted(l, s) && Capped(l, cap, s);
      OutstandingRemove(l.books.reservations, id, s, l.books.last);
      var out, spent := Outstanding(l.books.reservations, s, l.books.last), Spent(l.settled, s);
      if s == r.session {
        WrapAdds(out, -r.cost);
        WrapAdds(spent, actual);
      }
    }
  }

  lemma {:induction false} NextKeeps(l: Ledger, cap: int, e: Event)
    requires Inv(l, cap) && cap <= MAX_INT64
    ensures Inv(Next(l, cap, e), cap)
  {
    hide Wrap, Reserved, Settled;
    match e
    case Reserve(session, price, input, output) =>
      if Reserved(l.books, cap, session, price, input, output).Ok? { ReserveKeeps(l, cap, session, price, input, output); }
    case Settle(id, u) =>
      if Settled(l.books, id, u).Ok? { SettleKeeps(l, cap, id, u); }
    case Record(session, u) =>
      var next := Next(l, cap, e);
      forall s ensures Accounted(next, s) && Capped(next, cap, s) { assert Accounted(l, s) && Capped(l, cap, s); }
  }

  lemma {:induction false} AfterKeeps(cap: int, events: seq<Event>)
    requires cap <= MAX_INT64
    ensures Inv(After(cap, events), cap)
  {
    if events == [] {
      WrapIsExact(0);
    } else {
      AfterKeeps(cap, events[..|events| - 1]);
      NextKeeps(After(cap, events[..|events| - 1]), cap, events[|events| - 1]);
    }
  }

  /** Over any run each reservation is settled at most once, and never while it is outstanding. */
  lemma {:induction false} SettledOnce(cap: int, events: seq<Event>, i: nat, j: nat)
    requires cap <= MAX_INT64 && i < j < |After(cap, events).settled|
    ensures var l := After(cap, events);
      l.settled[i].id != l.settled[j].id && l.settled[i].id !in l.books.reservations && l.settled[j].id !in l.books.reservations
  {
    AfterKeeps(cap, events);
  }

  /**
   Over any run with a positive cap, while cap plus overruns is a 64-bit amount: a session's recorded reserved amount is the
   sum of its outstanding reservations, its spent amount the sum of its settled costs, and together they exceed the cap by
   at most the overruns.
   */
  lemma {:induction false} NeverOverCap(cap: int, events: seq<Event>, session: string)
    requires 0 < cap <= MAX_INT64 && cap + Overrun(After(cap, events).settled, session) <= MAX_INT64
    ensures var l := After(cap, events); var c := CostFor(l.books, session);
      && c.reserved == Outstanding(l.books.reservations, session, l.books.last)
      && c.spent == Spent(l.settled, session)
      && 0 <= c.reserved && 0 <= c.spent
      && c.spent + c.reserved <= cap + Overrun(l.settled, session)
  {
    hide Wrap, After;
    var l := After(cap, events);
    AfterKeeps(cap, events);
    assert Accounted(l, session) && Capped(l, cap, session);
    AmountsAreNonNegative(l, session, l.books.last);
    SettledAreNonNegative(l.settled, session);
    WrapIsExact(Spent(l.settled, session));
    WrapIsExact(Outstanding(l.books.reservations, session, l.books.last));
  }

  /** With or without a cap, the recorded amounts are the true sums as long as those are 64-bit amounts. */
  lemma {:induction false} AmountsAreExact(cap: int, events: seq<Event>, session: string)
    requires cap <= MAX_INT64
    ensures var l := After(cap, events); var c := CostFor(l.books, session);
      && (c.reserved == Outstanding(l.books.reservations, session, l.books.last) <==>
            Outstanding(l.books.reservations, session, l.books.last) <= MAX_INT64)
      && (c.spent == Spent(l.settled, session) <==> Spent(l.settled, session) <= MAX_INT64)
  {
    hide Wrap, After;
    var l := After(cap, events);
    AfterKeeps(cap, events);
    assert Accounted(l, session);
    AmountsAreNonNegative(l, session, l.books.last);
    SettledAreNonNegative(l.settled, session);
    WrapIsExact(Spent(l.settled, session));
    WrapIsExact(Outstanding(l.books.reservations, session, l.books.last));
  }

  /** Without overruns, which ReservationCovers gives for calls within their estimates, a session never exceeds its cap. */
  lemma {:induction false} CoveredNeverOverCap(cap: int, events: seq<Event>, session: string)
    requires 0 < cap <= MAX_INT64
    requires forall i :: 0 <= i < |After(cap, events).settled| ==> After(cap, events).settled[i].actual <= After(cap, events).settled[i].reserved
    ensures CostFor(After(cap, events).books, session).spent + CostFor(After(cap, events).books, session).reserved <= cap
  {
    hide After;
    NoOverrun(After(cap, events).settled, session);
    NeverOverCap(cap, events, session);
  }

  lemma {:induction false} NoOverrun(settled: seq<Settlement>, session: string)
    requires forall i :: 0 <= i < |settled| ==> settled[i].actual <= settled[i].reserved
    ensures Overrun(settled, session) == 0
  {
    if settled != [] { NoOverrun(settled[..|settled| - 1], session); }
  }

  /** Passing zero usage releases a reservation: the amounts and reservations are as if it had not been made. */
  lemma {:induction false} ReleaseUndoesReserve(cap: int, events: seq<Event>, session: string, price: ModelPrice, input: int, output: int)
    requires cap <= MAX_INT64 && NonNegative(UsageTerms(price, NOTHING))
    requires Reserved(After(cap, events).books, cap, session, Some(price), input, output).Ok?
    ensures var b := After(cap, events).books;
      var (id, held) := Reserved(b, cap, session, Some(price), input, output).value;
      && Settled(held, id, NOTHING).Ok?
      && var after := Settled(held, id, NOTHING).value;
         && after.reservations == b.reservations
         && forall s :: CostFor(after, s).reserved == CostFor(b, s).reserved && CostFor(after, s).spent == CostFor(b, s).spent
  {
    hide Wrap, ExceedsCap, CostOf, ActualCostOf, After, Outstanding, Spent, Capped, Reserved, NonNegative, UsageTerms;
    ReservedShape(After(cap, events).books, cap, session, Some(price), input, output);
    var l := After(cap, events);
    AfterKeeps(cap, events);
    assert Accounted(l, session);
    var c, cost := CostFor(l.books, session), CostOf(price, input, output).value;
    NothingIsFree(price);
    WrapAdds(c.reserved + cost, -cost);
    WrapAdds(Outstanding(l.books.reservations, session, l.books.last), 0);
    WrapAdds(Spent(l.settled, session), 0);
  }

  lemma {:induction false} NothingIsFree(price: ModelPrice)
    requires NonNegative(UsageTerms(price, NOTHING))
    ensures ActualCostOf(price, NOTHING) == Some(0)
  {
    hide Sum, RatesFor, NonNegative;
    var r := RatesFor(price, 0);
    assert UsageTerms(price, NOTHING) ==
      [Term(0, r.input), Term(0, r.output), Term(0, r.cacheRead), Term(0, r.cacheWrite), Term(0, r.cacheWrite1h)];
    SumOfFive(Term(0, r.input), Term(0, r.output), Term(0, r.cacheRead), Term(0, r.cacheWrite), Term(0, r.cacheWrite1h));
  }

  const NOTHING: Usage := Usage(0, 0, 0, 0, 0, 0)

  // ---------------------------------------------------------------------------------------------
  // Calls without a price

  /** How many calls of a session were recorded without a price. */
  ghost function UnpricedCalls(events: seq<Event>, session: string): nat
  {
    if events == [] then 0
    else
      var e := events[|events| - 1];
      UnpricedCalls(events[..|events| - 1], session) + if e.Record? && e.session == session then 1 else 0
  }

  /**
   Over any run the unpriced counter is the number of a session's calls recorded without a price, wrapped: it is zero exactly
   when the spent amount accounts for every completed call, as long as fewer than 2^64 were recorded.
   */
  lemma {:induction false} UnpricedIsCounted(cap: int, events: seq<Event>, session: string)
    ensures CostFor(After(cap, events).books, session).unpriced == Wrap(UnpricedCalls(events, session))
    ensures UnpricedCalls(events, session) < TWO64 ==>
      (CostFor(After(cap, events).books, session).unpriced == 0 <==> UnpricedCalls(events, session) == 0)
  {
    hide Reserved, Settled;
    if events == [] {
      WrapIsExact(0);
    } else {
      var n := |events| - 1;
      var l := After(cap, events[..n]);
      UnpricedIsCounted(cap, events[..n], session);
      OthersKeepCount(l, cap, events[n], session);
      WrapAdds(UnpricedCalls(events[..n], session), 1);
    }
    WrapIsZero(UnpricedCalls(events, session));
  }

  lemma {:induction false} WrapIsZero(n: nat)
    ensures n < TWO64 ==> (Wrap(n) == 0 <==> n == 0)
  {
  }

  lemma {:induction false} OthersKeepCount(l: Ledger, cap: int, e: Event, session: string)
    ensures CostFor(Next(l, cap, e).books, session).unpriced ==
      if e.Record? && e.session == session then Wrap(CostFor(l.books, session).unpriced + 1) else CostFor(l.books, session).unpriced
  {
    hide Wrap, ExceedsCap, CostOf, ActualCostOf;
  }

  // ---------------------------------------------------------------------------------------------
  // Tokens

  /** What one call adds to a session's count of some part of its usage. */
  ghost function Adds(b: Books, e: Event, session: string, part: Usage -> int): int
  {
    match e
    case Reserve(_, _, _, _) => 0
    case Settle(id, u) => if Settled(b, id, u).Ok? && b.reservations[id].session == session then part(u) else 0
    case Record(s, u) => if s == session then Positive(part(u)) else 0
  }

  ghost function Counted(cap: int, events: seq<Event>, session: string, part: Usage -> int): int
  {
    if events == [] then 0
    else
      var n := |events| - 1;
      Counted(cap, events[..n], session, part) + Adds(After(cap, events[..n]).books, events[n], session, part)
  }

  function Input(u: Usage): int { u.uncached }
  function Output(u: Usage): int { u.completion }
  function CacheReads(u: Usage): int { u.cacheReads }
  function CacheWrites(u: Usage): int { u.cacheWrites }

  ghost predicate Affects(b: Books, e: Event, session: string)
  {
    match e
    case Reserve(_, _, _, _) => false
    case Settle(id, u) => Settled(b, id, u).Ok? && b.reservations[id].session == session
    case Record(s, _) => s == session
  }

  lemma {:induction false} TokensGrow(l: Ledger, cap: int, e: Event, session: string)
    ensures var b := l.books; var c, d := CostFor(b, session), CostFor(Next(l, cap, e).books, session);
      if Affects(b, e, session) then
        && d.input == Wrap(c.input + Adds(b, e, session, Input)) && d.output == Wrap(c.output + Adds(b, e, session, Output))
        && d.cacheReads == Wrap(c.cacheReads + Adds(b, e, session, CacheReads))
        && d.cacheWrites == Wrap(c.cacheWrites + Adds(b, e, session, CacheWrites))
      else
        && d.input == c.input && d.output == c.output && d.cacheReads == c.cacheReads && d.cacheWrites == c.cacheWrites
        && Adds(b, e, session, Input) == Adds(b, e, session, Output) == 0
        && Adds(b, e, session, CacheReads) == Adds(b, e, session, CacheWrites) == 0
  {
    hide Wrap, ExceedsCap, CostOf, ActualCostOf;
  }

  /** Over any run each counter is the wrapped sum of its own part of every call that was settled or recorded. */
  lemma {:induction false} TokensAreCounted(cap: int, events: seq<Event>, session: string)
    ensures var c := CostFor(After(cap, events).books, session);
      && c.input == Wrap(Counted(cap, events, session, Input)) && c.output == Wrap(Counted(cap, events, session, Output))
      && c.cacheReads == Wrap(Counted(cap, events, session, CacheReads)) && c.cacheWrites == Wrap(Counted(cap, events, session, CacheWrites))
  {
    hide Reserved, Settled, Wrap;
    if events == [] {
      assert Wrap(0) == 0 by { WrapIsExact(0); }
    } else {
      var n := |events| - 1;
      var l := After(cap, events[..n]);
      TokensAreCounted(cap, events[..n], session);
      TokensGrow(l, cap, events[n], session);
      WrapAdds(Counted(cap, events[..n], session, Input), Adds(l.books, events[n], session, Input));
      WrapAdds(Counted(cap, events[..n], session, Output), Adds(l.books, events[n], session, Output));
      WrapAdds(Counted(cap, events[..n], session, CacheReads), Adds(l.books, events[n], session, CacheReads));
      WrapAdds(Counted(cap, events[..n], session, CacheWrites), Adds(l.books, events[n], session, CacheWrites));
    }
  }
}
