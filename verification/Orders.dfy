/** Limit orders: what a stored order locks, when it fills a taker, and weights for summing over orders. */
module Orders {
  import opened Seqs
  import opened Bank

  /** The byte behind a kind: 1 buys, 2 sells, anything else is refused by the keeper. */
  datatype OrderKind = BuyOrder | SellOrder | UnknownKind(code: nat)

  datatype LimitOrder = LimitOrder(
    orderID: int, sender: Addr, kind: OrderKind, amount: Coin, price: Coin, expiresAt: int)

  datatype FilledLimitOrder = FilledLimitOrder(orderID: int, filledAmount: Coin, filledPrice: Coin)

  /** One execution: `amount` units of the stored order `maker`, as it stood just before. */
  datatype Fill = Fill(maker: LimitOrder, amount: int)

  function Opposite(kind: OrderKind): OrderKind {
    if kind == SellOrder then BuyOrder else SellOrder
  }

  function GetTotalPrice(amount: Coin, price: Coin): Coin {
    Coin(price.denom, amount.amount * price.amount)
  }

  predicate Positive(o: LimitOrder) {
    o.amount.amount > 0 && o.price.amount > 0
  }

  /** `o` with `f` units of its amount left open. */
  function WithAmount(o: LimitOrder, f: int): LimitOrder {
    o.(amount := Coin(o.amount.denom, f))
  }

  function Reduced(o: LimitOrder, f: int): LimitOrder {
    WithAmount(o, o.amount.amount - f)
  }

  /** The coins an order keeps locked: the amount of a sell, the total price of a buy. */
  function Escrow(o: LimitOrder): Coin {
    if o.kind == BuyOrder then GetTotalPrice(o.amount, o.price) else o.amount
  }

  /** The coins an order is owed when it fills completely. */
  function Proceeds(o: LimitOrder): Coin {
    if o.kind == BuyOrder then o.amount else GetTotalPrice(o.amount, o.price)
  }

  /** What a fill takes from the taker and gives to the maker. */
  function Payment(fill: Fill): Coin {
    Proceeds(WithAmount(fill.maker, fill.amount))
  }

  /** What a fill releases from the maker's escrow to the taker. */
  function Release(fill: Fill): Coin {
    Escrow(WithAmount(fill.maker, fill.amount))
  }

  function Report(fill: Fill): FilledLimitOrder {
    FilledLimitOrder(fill.maker.orderID, Coin(fill.maker.amount.denom, fill.amount), fill.maker.price)
  }

  // ---- the match decision ----

  datatype Decision = MismatchPanic | Decision(fills: bool, fillAmount: Coin, fillPrice: Coin)

  function DoesFill(o: LimitOrder, kind: OrderKind, amount: Coin, price: Coin): Decision {
    if o.amount.denom != amount.denom then MismatchPanic
    else if o.price.denom != price.denom then MismatchPanic
    else if o.kind == kind then MismatchPanic
    else
      var fillAmount := if !(amount.amount >= o.amount.amount) then amount else o.amount;
      if kind == BuyOrder then
        Decision(price.amount >= o.price.amount, fillAmount, o.price)
      else
        Decision(o.price.amount >= price.amount, fillAmount, o.price)
  }

  /** A taker of this kind and limit price accepts the price of `o`. */
  predicate Eligible(kind: OrderKind, limit: int, o: LimitOrder) {
    if kind == BuyOrder then limit >= o.price.amount else o.price.amount >= limit
  }

  function Min(x: int, y: int): int {
    if x <= y then x else y
  }

  /** `o` rests on the side `kind` of the market `amountDenom`/`priceDenom`, and is still open. */
  predicate OnMarket(o: LimitOrder, kind: OrderKind, amountDenom: Denom, priceDenom: Denom) {
    && o.kind == kind && o.amount.denom == amountDenom && o.price.denom == priceDenom
    && Positive(o)
  }

  /** On its own market the decision never panics: the order fills exactly when the taker accepts its price, for the
      smaller of the two amounts, at the stored price. */
  lemma DoesFillOnMarket(o: LimitOrder, kind: OrderKind, amount: Coin, price: Coin)
    requires OnMarket(o, Opposite(kind), amount.denom, price.denom) && (kind == BuyOrder || kind == SellOrder)
    ensures DoesFill(o, kind, amount, price)
            == Decision(
                 Eligible(kind, price.amount, o), Coin(amount.denom, Min(amount.amount, o.amount.amount)), o.price)
  {
  }

  /** The decision panics exactly on an order of another market or of the taker's own kind. */
  lemma DoesFillPanics(o: LimitOrder, kind: OrderKind, amount: Coin, price: Coin)
    ensures DoesFill(o, kind, amount, price).MismatchPanic?
            <==> !(o.amount.denom == amount.denom && o.price.denom == price.denom && o.kind != kind)
  {
  }

  ghost predicate AllOnMarket(orders: seq<LimitOrder>, kind: OrderKind, amountDenom: Denom, priceDenom: Denom) {
    forall o :: o in orders ==> OnMarket(o, kind, amountDenom, priceDenom)
  }

  // ---- weights ----

  /** What to add up over a collection of orders. */
  datatype Weight =
    | EscrowIn(d: Denom)                  // coins of denomination d locked
    | OpenOf(id: int)                     // open amount of order id
    | LockedOf(id: int)                   // locked coins of order id
    | RestingOf(id: int)                  // number of orders numbered id
    | Owed(a: Addr, d: Denom)             // coins of denomination d locked for account a
    | WhenExpired(now: int, w: Weight)    // w, over the orders that expired before now

  /** Weights that count what is open, so that a partial fill removes exactly its share. */
  predicate Proportional(w: Weight) {
    w.EscrowIn? || w.OpenOf? || w.LockedOf? || w.Owed?
  }

  function WeightOf(w: Weight, o: LimitOrder): int {
    match w
    case EscrowIn(d) => In(Escrow(o), d)
    case OpenOf(id) => if o.orderID == id then o.amount.amount else 0
    case LockedOf(id) => if o.orderID == id then Escrow(o).amount else 0
    case RestingOf(id) => if o.orderID == id then 1 else 0
    case Owed(a, d) => if o.sender == a then In(Escrow(o), d) else 0
    case WhenExpired(now, v) => if o.expiresAt < now then WeightOf(v, o) else 0
  }

  function SumOrders(w: Weight, orders: seq<LimitOrder>): int {
    if orders == [] then 0 else WeightOf(w, orders[0]) + SumOrders(w, orders[1..])
  }

  function FillWeight(w: Weight, fill: Fill): int {
    WeightOf(w, WithAmount(fill.maker, fill.amount))
  }

  function SumFills(w: Weight, fills: seq<Fill>): int {
    if fills == [] then 0 else FillWeight(w, fills[0]) + SumFills(w, fills[1..])
  }

  lemma SumOrdersCons(w: Weight, o: LimitOrder, t: seq<LimitOrder>)
    ensures SumOrders(w, [o] + t) == WeightOf(w, o) + SumOrders(w, t)
  {
    assert ([o] + t)[1..] == t;
  }

  lemma SumFillsCons(w: Weight, fill: Fill, t: seq<Fill>)
    ensures SumFills(w, [fill] + t) == FillWeight(w, fill) + SumFills(w, t)
  {
    assert ([fill] + t)[1..] == t;
  }

  lemma {:induction false} SumOrdersConcat(w: Weight, s: seq<LimitOrder>, t: seq<LimitOrder>)
    ensures SumOrders(w, s + t) == SumOrders(w, s) + SumOrders(w, t)
  {
    if s == [] {
      assert s + t == t;
    } else {
      SumOrdersConcat(w, s[1..], t);
      assert (s + t)[1..] == s[1..] + t;
    }
  }

  lemma {:induction false} SumFillsConcat(w: Weight, s: seq<Fill>, t: seq<Fill>)
    ensures SumFills(w, s + t) == SumFills(w, s) + SumFills(w, t)
  {
    if s == [] {
      assert s + t == t;
    } else {
      SumFillsConcat(w, s[1..], t);
      assert (s + t)[1..] == s[1..] + t;
    }
  }

  /** Filling `f` units removes from a proportional weight exactly the weight of the fill. */
  lemma FillTakesItsShare(w: Weight, o: LimitOrder, f: int)
    requires Proportional(w)
    ensures WeightOf(w, o) == WeightOf(w, Reduced(o, f)) + FillWeight(w, Fill(o, f))
  {
    assert (o.amount.amount - f) * o.price.amount == o.amount.amount * o.price.amount - f * o.price.amount;
  }

  lemma {:induction false} SumOrdersNonNegative(w: Weight, orders: seq<LimitOrder>)
    requires forall o :: o in orders ==> WeightOf(w, o) >= 0
    ensures SumOrders(w, orders) >= 0
    ensures forall o :: o in orders ==> WeightOf(w, o) <= SumOrders(w, orders)
  {
    if orders != [] {
      HeadTail(orders);
      SumOrdersNonNegative(w, orders[1..]);
    }
  }
}
