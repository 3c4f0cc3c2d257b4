/** What a run does to one account: its coins, together with what its resting orders keep locked, change only by the
    executions it takes part in and by pool operations. */
module Accounts {
  import opened Seqs
  import opened MapSums
  import opened Bank
  import opened Orders
  import opened Settlement
  import opened Exchange
  import opened Processing
  import opened Sweeping
  import opened Messages
  import opened Clp
  import opened System
  import opened Origins

  /** Coins an account owns, in its balance or locked by its own resting orders. */
  ghost function Wealth(x: State, a: Addr, d: Denom): int {
    BalanceOf(x.bal, a, d) + SumBooks(Owed(a, d), x.books)
  }

  datatype Execution = Execution(taker: Addr, fill: Fill)

  /** What an execution is worth to account `a`: the taker swaps the payment for the release, the maker the other way
      round. */
  function Worth(a: Addr, d: Denom, e: Execution): int {
    (if a == e.taker then In(Release(e.fill), d) - In(Payment(e.fill), d) else 0)
    + (if a == e.fill.maker.sender then In(Payment(e.fill), d) - In(Release(e.fill), d) else 0)
  }

  function SumWorth(a: Addr, d: Denom, es: seq<Execution>): int {
    if es == [] then 0 else Worth(a, d, es[0]) + SumWorth(a, d, es[1..])
  }

  function TakenBy(taker: Addr, fills: seq<Fill>): seq<Execution> {
    if fills == [] then [] else [Execution(taker, fills[0])] + TakenBy(taker, fills[1..])
  }

  lemma {:induction false} SumWorthConcat(a: Addr, d: Denom, s: seq<Execution>, t: seq<Execution>)
    ensures SumWorth(a, d, s + t) == SumWorth(a, d, s) + SumWorth(a, d, t)
  {
    if s == [] {
      assert s + t == t;
    } else {
      SumWorthConcat(a, d, s[1..], t);
      ConcatTail(s, t);
    }
  }

  /** A maker's gain in coins less what it no longer has locked is what the execution is worth to it. */
  lemma {:induction false} GainsLessRelease(a: Addr, d: Denom, taker: Addr, fills: seq<Fill>)
    ensures Gains(a, d, taker, fills) - SumFills(Owed(a, d), fills) == SumWorth(a, d, TakenBy(taker, fills))
  {
    if fills != [] {
      GainsLessRelease(a, d, taker, fills[1..]);
      ConsTail(Execution(taker, fills[0]), TakenBy(taker, fills[1..]));
      assert FillWeight(Owed(a, d), fills[0]) == if fills[0].maker.sender == a then In(Release(fills[0]), d) else 0;
    }
  }

  // ---- single steps ----

  lemma ProcessWealth(x: State, r: Request, now: int, a: Addr, d: Denom)
    requires Valid(x)
    ensures var s := Process(x, r, now);
      Wealth(s.after, a, d) == Wealth(x, a, d) + SumWorth(a, d, TakenBy(r.sender, s.flow.fills))
  {
    ProcessFlow(x, r, now, Owed(a, d));
    ProcessBalance(x, r, now, a, d);
    GainsLessRelease(a, d, r.sender, Process(x, r, now).flow.fills);
    NeverRefunds(x, r, now);
  }

  lemma NeverRefunds(x: State, r: Request, now: int)
    requires Valid(x)
    ensures Process(x, r, now).flow.refunded == []
  {
  }

  lemma SweepWealth(x: State, now: int, keys: seq<string>, a: Addr, d: Denom)
    requires Valid(x) && Enumerates(keys, x.books)
    ensures Wealth(Sweep(x, now, keys).after, a, d) == Wealth(x, a, d)
  {
    SweepBalance(x, now, keys, a, d);
    SweepFlow(x, now, keys, Owed(a, d));
  }

  // ---- runs ----

  /** The executions of a step; only orders have any. */
  ghost function Executed(s: Chain, a: Action): seq<Execution>
    requires BooksWellFormed(s.ex.books) && Enabled(s, a)
  {
    if a.PlaceOrder? then TakenBy(a.request.sender, ExchangeStep(s, a).flow.fills) else []
  }

  ghost function Executions(c: Config, s: Chain, acts: seq<Action>): seq<Execution>
    requires Inv(c, s) && Possible(c, s, acts)
    decreases |acts|
  {
    if acts == [] then []
    else
      NextKeepsInv(c, s, acts[0]);
      Executed(s, acts[0]) + Executions(c, Next(c, s, acts[0]), acts[1..])
  }

  /** What a pool operation moves to an account, from its message; other steps move nothing through pools. */
  function PoolMove(c: Config, s: Chain, act: Action, a: Addr, d: Denom): int {
    match act
    case CreatePool(m) => CreateMove(c, PoolsOf(s), m, a, d)
    case TradePool(sender, from, to, amount) => TradeMove(c, PoolsOf(s), sender, from, to, amount, a, d)
    case _ => 0
  }

  /** What the pool operations of a run move to an account. */
  ghost function PoolMoves(c: Config, s: Chain, acts: seq<Action>, a: Addr, d: Denom): int
    requires Inv(c, s) && Possible(c, s, acts)
    decreases |acts|
  {
    if acts == [] then 0
    else
      NextKeepsInv(c, s, acts[0]);
      PoolMove(c, s, acts[0], a, d) + PoolMoves(c, Next(c, s, acts[0]), acts[1..], a, d)
  }

  lemma NextWealth(c: Config, s: Chain, act: Action, a: Addr, d: Denom)
    requires Inv(c, s) && Enabled(s, act)
    ensures Wealth(Next(c, s, act).ex, a, d)
            == Wealth(s.ex, a, d) + SumWorth(a, d, Executed(s, act)) + PoolMove(c, s, act, a, d)
  {
    match act
    case PlaceOrder(r, checkedAt, now) =>
      if ValidateBasic(r, checkedAt).None? {
        ProcessWealth(s.ex, r, now, a, d);
      }
    case SweepExpired(now, keys) => SweepWealth(s.ex, now, keys, a, d);
    case CreatePool(m) => CreateMoves(c, PoolsOf(s), m, a, d);
    case TradePool(sender, from, to, amount) => TradeMoves(c, PoolsOf(s), sender, from, to, amount, a, d);
  }

  /** Over any run, an account's coins and locked coins together change by exactly what its executions are worth to it
      and what pool operations move to it by their messages: placing orders, refusals and expiry cost nothing. */
  lemma {:induction false} WealthAccounted(c: Config, s: Chain, acts: seq<Action>, a: Addr, d: Denom)
    requires Inv(c, s) && Possible(c, s, acts)
    ensures Wealth(Run(c, s, acts).ex, a, d)
            == Wealth(s.ex, a, d) + SumWorth(a, d, Executions(c, s, acts)) + PoolMoves(c, s, acts, a, d)
    decreases |acts|
  {
    if acts != [] {
      NextKeepsInv(c, s, acts[0]);
      var t := Next(c, s, acts[0]);
      NextWealth(c, s, acts[0], a, d);
      WealthAccounted(c, t, acts[1..], a, d);
      SumWorthConcat(a, d, Executed(s, acts[0]), Executions(c, t, acts[1..]));
    }
  }

  // ---- the terms of an execution ----

  /** Where in a run an execution happened: the action, and the run up to it. */
  lemma {:induction false} ExecutedWhen(c: Config, s: Chain, acts: seq<Action>, e: Execution) returns (j: nat)
    requires Inv(c, s) && Possible(c, s, acts) && e in Executions(c, s, acts)
    ensures j < |acts| && acts[j].PlaceOrder? && Possible(c, s, acts[..j])
    ensures e in Executed(Run(c, s, acts[..j]), acts[j])
    ensures forall p :: p in History(c, s, acts[..j]).rested ==> p in History(c, s, acts).rested
    decreases |acts|
  {
    NextKeepsInv(c, s, acts[0]);
    if e in Executed(s, acts[0]) {
      j := 0;
      assert acts[..0] == [];
    } else {
      var t := Next(c, s, acts[0]);
      j := ExecutedWhen(c, t, acts[1..], e);
      j := j + 1;
      assert acts[..j][0] == acts[0] && acts[..j][1..] == acts[1..][..j - 1];
    }
  }

  lemma {:induction false} TakenByTaker(taker: Addr, fills: seq<Fill>, e: Execution)
    requires e in TakenBy(taker, fills)
    ensures e.taker == taker && e.fill in fills
  {
    if e != Execution(taker, fills[0]) {
      TakenByTaker(taker, fills[1..], e);
    }
  }

  /** What a trade of `amount` between a placed order and a taker is worth to account `a`: a buying maker gains the
      amount and gives up amount times its price, a selling maker the reverse, the taker mirrors it, nobody else is
      concerned, and an account that fills its own order neither wins nor loses. */
  function Terms(a: Addr, d: Denom, maker: Request, taker: Addr, amount: int): int {
    var bought := if d == maker.amount.denom then amount
                  else if d == maker.price.denom then -(amount * maker.price.amount)
                  else 0;
    var toMaker := if maker.kind == BuyOrder then bought else -bought;
    (if a == maker.sender then toMaker else 0) - (if a == taker then toMaker else 0)
  }

  /** The taker accepts the maker's price, on the other side of the same market. */
  predicate Agree(maker: Request, taker: Request) {
    && maker.kind == Opposite(taker.kind)
    && maker.amount.denom == taker.amount.denom && maker.price.denom == taker.price.denom
    && if taker.kind == BuyOrder then maker.price.amount <= taker.price.amount
       else taker.price.amount <= maker.price.amount
  }

  lemma WorthIsTerms(e: Execution, p: LimitOrder, maker: Request, a: Addr, d: Denom)
    requires PartOf(e.fill.maker, p) && PlacedAs(p, maker)
    requires maker.amount.denom != maker.price.denom && !maker.kind.UnknownKind?
    ensures Worth(a, d, e) == Terms(a, d, maker, e.taker, e.fill.amount)
  {
  }

  /** Makers trade at the price they asked for. Every execution of a run from genesis is between two orders placed in
      it, the maker's before the taker's, on the two sides of one market: it takes a positive part of what the maker
      asked for, at exactly the maker's price, which the taker's limit accepts, and moves nothing else to anybody. */
  lemma MakersTradeAtTheirPrice(c: Config, s: Chain, acts: seq<Action>, e: Execution)
    returns (p: LimitOrder, i: nat, j: nat)
    requires Genesis(s) && Inv(c, s) && Possible(c, s, acts) && e in Executions(c, s, acts)
    ensures i < j < |acts| && Validated(acts[i]) && Validated(acts[j])
    ensures p in History(c, s, acts).rested && PlacedAs(p, acts[i].request) && PartOf(e.fill.maker, p)
    ensures e.taker == acts[j].request.sender && Agree(acts[i].request, acts[j].request)
    ensures 0 < e.fill.amount <= e.fill.maker.amount.amount <= acts[i].request.amount.amount
    ensures acts[i].request.price.amount > 0
    ensures forall a, d :: Worth(a, d, e) == Terms(a, d, acts[i].request, e.taker, e.fill.amount)
  {
    j := ExecutedWhen(c, s, acts, e);
    var before := acts[..j];
    var x, taker := Run(c, s, before).ex, acts[j].request;
    TakenByTaker(taker.sender, Deliver(x, taker, acts[j].checkedAt, acts[j].now).flow.fills, e);
    ProcessFills(x, taker, acts[j].now, e.fill);
    RunStems(c, s, before);
    p :| PartOf(e.fill.maker, p) && (p in History(c, s, before).rested || Rests(p, s.ex.books));
    i := RunRested(c, s, before, p);
    forall a, d
      ensures Worth(a, d, e) == Terms(a, d, acts[i].request, e.taker, e.fill.amount)
    {
      WorthIsTerms(e, p, acts[i].request, a, d);
    }
  }

  // ---- bystanders ----

  ghost predicate PlacesNothing(a: Addr, acts: seq<Action>) {
    forall act :: act in acts && act.PlaceOrder? ==> act.request.sender != a
  }

  lemma {:induction false} WorthNothing(a: Addr, d: Denom, es: seq<Execution>)
    requires forall e :: e in es ==> e.taker != a && e.fill.maker.sender != a
    ensures SumWorth(a, d, es) == 0
  {
    if es != [] {
      HeadTail(es);
      WorthNothing(a, d, es[1..]);
    }
  }

  lemma {:induction false} OwedNothing(a: Addr, d: Denom, orders: seq<LimitOrder>)
    requires forall o :: o in orders ==> o.sender != a
    ensures SumOrders(Owed(a, d), orders) == 0
  {
    if orders != [] {
      HeadTail(orders);
      OwedNothing(a, d, orders[1..]);
    }
  }

  lemma {:induction false} LocksNothing(a: Addr, d: Denom, books: BookStore)
    requires forall k, o :: k in books && o in books[k].orders ==> o.sender != a
    ensures SumBooks(Owed(a, d), books) == 0
    decreases |books|
  {
    if books != map[] {
      var k :| k in books;
      OwedNothing(a, d, books[k].orders);
      MapSumExtract(books, BookWeight(Owed(a, d)), k);
      LocksNothing(a, d, books - {k});
    }
  }

  lemma {:induction false} NoPoolMoves(c: Config, s: Chain, acts: seq<Action>, a: Addr, d: Denom)
    requires Inv(c, s) && Possible(c, s, acts)
    requires forall act :: act in acts ==> act.PlaceOrder? || act.SweepExpired?
    ensures PoolMoves(c, s, acts, a, d) == 0
    decreases |acts|
  {
    if acts != [] {
      NextKeepsInv(c, s, acts[0]);
      HeadTail(acts);
      NoPoolMoves(c, Next(c, s, acts[0]), acts[1..], a, d);
    }
  }

  lemma OwnsNoOrder(c: Config, s: Chain, acts: seq<Action>, a: Addr)
    requires Genesis(s) && Inv(c, s) && Possible(c, s, acts) && PlacesNothing(a, acts)
    ensures forall e :: e in Executions(c, s, acts) ==> e.taker != a && e.fill.maker.sender != a
    ensures var books := Run(c, s, acts).ex.books;
      forall k, o :: k in books && o in books[k].orders ==> o.sender != a
  {
    forall e | e in Executions(c, s, acts)
      ensures e.taker != a && e.fill.maker.sender != a
    {
      var p, i, j := MakersTradeAtTheirPrice(c, s, acts, e);
      assert acts[i] in acts && acts[j] in acts;
    }
    var books := Run(c, s, acts).ex.books;
    forall k, o | k in books && o in books[k].orders
      ensures o.sender != a
    {
      assert Rests(o, books);
      var p, i := OrdersKeepTheirTerms(c, s, acts, o);
      assert acts[i] in acts;
    }
  }

  /** An account that places no order is touched by pool operations only: whatever the others trade, its balances change
      by exactly what pools move to it, and without pool operations not at all. */
  lemma BystandersUntouched(c: Config, s: Chain, acts: seq<Action>, a: Addr, d: Denom)
    requires Genesis(s) && Inv(c, s) && Possible(c, s, acts) && PlacesNothing(a, acts)
    ensures var t := Run(c, s, acts);
      && BalanceOf(t.ex.bal, a, d) == BalanceOf(s.ex.bal, a, d) + PoolMoves(c, s, acts, a, d)
      && ((forall act :: act in acts ==> act.PlaceOrder? || act.SweepExpired?) ==>
            BalanceOf(t.ex.bal, a, d) == BalanceOf(s.ex.bal, a, d))
  {
    OwnsNoOrder(c, s, acts, a);
    WealthAccounted(c, s, acts, a, d);
    WorthNothing(a, d, Executions(c, s, acts));
    LocksNothing(a, d, Run(c, s, acts).ex.books);
    if forall act :: act in acts ==> act.PlaceOrder? || act.SweepExpired? {
      NoPoolMoves(c, s, acts, a, d);
    }
  }
}
