/** The exchange as a state machine on values: what processing an order and sweeping expired orders do to the
    ledger, the stored books and the order counter, and the invariant both keep. */
module Exchange {
  import opened Options
  import opened MapSums
  import opened Bank
  import opened Orders
  import opened Books
  import opened Settlement

  type BookStore = map<string, BookRecord>

  /** `nextID` is None while the counter was never set. */
  datatype State = State(bal: Balances, books: BookStore, nextID: Option<int>)

  datatype Request = Request(sender: Addr, kind: OrderKind, amount: Coin, price: Coin, expiresAt: int)

  datatype Error =
    | OrderExpired | InvalidKind | SameDenom | AmountNotPositive | PriceNotPositive
    | InsufficientCoins | InvalidGenesis | WrongBook | OrderBookDirection | UnknownAddress

  datatype Outcome =
    | Accepted(orderID: int, openAmount: Coin, filled: seq<FilledLimitOrder>)
    | Rejected(error: Error)
    | Panicked
    | SweepDone

  /** What a step did to orders: newly resting orders, executions, and expired orders refunded. */
  datatype Flow = Flow(rested: seq<LimitOrder>, fills: seq<Fill>, refunded: seq<LimitOrder>)

  const NO_FLOW := Flow([], [], [])

  datatype Step = Step(after: State, outcome: Outcome, flow: Flow)

  /** How much a step adds to a weight of the books. */
  function Net(w: Weight, flow: Flow): int {
    SumOrders(w, flow.rested) - SumFills(w, flow.fills) - SumOrders(w, flow.refunded)
  }

  // ---- stored books ----

  ghost predicate WellFormed(key: string, b: BookRecord) {
    && !b.kind.UnknownKind? && b.amountDenom != b.priceDenom
    && key == b.key && key == MakeKeyOrderBook(b.kind, b.amountDenom, b.priceDenom)
    && AllOnMarket(b.orders, b.kind, b.amountDenom, b.priceDenom)
    && InPriority(b.kind, b.orders)
  }

  ghost predicate BooksWellFormed(books: BookStore) {
    forall k :: k in books ==> WellFormed(k, books[k])
  }

  /** The stored book under the market's key, or a new empty one. */
  function BookFor(books: BookStore, kind: OrderKind, ad: Denom, pd: Denom): (b: BookRecord)
    requires !kind.UnknownKind?
  {
    var key := MakeKeyOrderBook(kind, ad, pd);
    if key in books then books[key] else BookRecord(key, kind, ad, pd, [])
  }

  /** The book really is the book of this market, and not another one stored under the same key. */
  predicate IsMarket(b: BookRecord, ad: Denom, pd: Denom) {
    b.amountDenom == ad && b.priceDenom == pd
  }

  lemma BookForWellFormed(books: BookStore, kind: OrderKind, ad: Denom, pd: Denom)
    requires BooksWellFormed(books) && !kind.UnknownKind? && ad != pd
    ensures var b := BookFor(books, kind, ad, pd);
      b.kind == kind && b.key == MakeKeyOrderBook(kind, ad, pd) && WellFormed(b.key, b)
  {
    var b := BookFor(books, kind, ad, pd);
    KeyFixesKind(kind, ad, pd, b.kind, b.amountDenom, b.priceDenom);
  }

  ghost function BookWeight(w: Weight): (string, BookRecord) -> int {
    (k: string, b: BookRecord) => SumOrders(w, b.orders)
  }

  /** A weight summed over every resting order of every book. */
  ghost function SumBooks(w: Weight, books: BookStore): int {
    MapSum(books, BookWeight(w))
  }

  lemma SumBooksPut(w: Weight, books: BookStore, kind: OrderKind, ad: Denom, pd: Denom, orders: seq<LimitOrder>)
    requires BooksWellFormed(books) && !kind.UnknownKind? && ad != pd
    ensures var b := BookFor(books, kind, ad, pd);
      SumBooks(w, books[b.key := b.(orders := orders)])
        == SumBooks(w, books) - SumOrders(w, b.orders) + SumOrders(w, orders)
  {
    BookForWellFormed(books, kind, ad, pd);
    var b := BookFor(books, kind, ad, pd);
    MapSumPut(books, BookWeight(w), b.key, b.(orders := orders));
  }

  // ---- the invariant ----

  /** Every price in the first book is strictly below every price in the second. */
  ghost predicate Apart(buys: seq<LimitOrder>, sells: seq<LimitOrder>) {
    forall b, s :: b in buys && s in sells ==> b.price.amount < s.price.amount
  }

  ghost predicate NeverCrossed(books: BookStore) {
    forall k1, k2 ::
      && k1 in books && k2 in books && books[k1].kind == BuyOrder && books[k2].kind == SellOrder
      && IsMarket(books[k2], books[k1].amountDenom, books[k1].priceDenom)
      ==> Apart(books[k1].orders, books[k2].orders)
  }

  ghost function Resting(id: int, books: BookStore): int {
    SumBooks(RestingOf(id), books)
  }

  /** An order number rests at most once, and never before it is handed out. */
  ghost predicate NumbersUsedOnce(books: BookStore, nextID: Option<int>) {
    forall id :: 0 <= Resting(id, books) <= 1 && (nextID.Some? && id >= nextID.value ==> Resting(id, books) == 0)
  }

  ghost predicate Valid(x: State) {
    && BooksWellFormed(x.books)
    && NeverCrossed(x.books)
    && NumbersUsedOnce(x.books, x.nextID)
  }

  lemma {:induction false} CountsMember(orders: seq<LimitOrder>, o: LimitOrder)
    requires o in orders
    ensures SumOrders(RestingOf(o.orderID), orders) >= 1
  {
    SumOrdersNonNegative(RestingOf(o.orderID), orders);
    assert WeightOf(RestingOf(o.orderID), o) == 1;
  }

  lemma RestingAtLeast(books: BookStore, k: string, id: int)
    requires k in books
    ensures SumOrders(RestingOf(id), books[k].orders) <= Resting(id, books)
  {
    var w := RestingOf(id);
    forall j | j in books
      ensures BookWeight(w)(j, books[j]) >= 0
    {
      SumOrdersNonNegative(w, books[j].orders);
    }
    MapSumBound(books, BookWeight(w));
    assert BookWeight(w)(k, books[k]) <= SumBooks(w, books);
  }

  lemma RestingBelowNext(x: State, k: string, o: LimitOrder)
    requires Valid(x) && k in x.books && o in x.books[k].orders && x.nextID.Some?
    ensures o.orderID < x.nextID.value
  {
    CountsMember(x.books[k].orders, o);
    RestingAtLeast(x.books, k, o.orderID);
  }

  lemma {:induction false} CountsTwo(orders: seq<LimitOrder>, i: nat, j: nat)
    requires i < j < |orders| && orders[i].orderID == orders[j].orderID
    ensures SumOrders(RestingOf(orders[i].orderID), orders) >= 2
  {
    var id := orders[i].orderID;
    if i == 0 {
      assert orders[j] == orders[1..][j - 1];
      CountsMember(orders[1..], orders[j]);
    } else {
      CountsTwo(orders[1..], i - 1, j - 1);
    }
  }

  /** Read off positions: two resting orders with the same number are the same order in the same place. */
  lemma NumbersDistinct(x: State, k1: string, i: nat, k2: string, j: nat)
    requires Valid(x) && k1 in x.books && k2 in x.books
    requires i < |x.books[k1].orders| && j < |x.books[k2].orders|
    requires x.books[k1].orders[i].orderID == x.books[k2].orders[j].orderID
    ensures k1 == k2 && i == j
  {
    var id := x.books[k1].orders[i].orderID;
    var w := RestingOf(id);
    assert Resting(id, x.books) <= 1;
    if k1 != k2 {
      CountsMember(x.books[k1].orders, x.books[k1].orders[i]);
      CountsMember(x.books[k2].orders, x.books[k2].orders[j]);
      MapSumExtract(x.books, BookWeight(w), k1);
      RestingAtLeast(x.books - {k1}, k2, id);
    } else if i < j {
      CountsTwo(x.books[k1].orders, i, j);
      RestingAtLeast(x.books, k1, id);
    } else if j < i {
      CountsTwo(x.books[k1].orders, j, i);
      RestingAtLeast(x.books, k1, id);
    }
  }

  // ---- processing an order ----

  /** The checks made before anything changes. */
  function Screen(bal: Balances, r: Request, now: int): Option<Error> {
    if r.expiresAt < now then Some(OrderExpired)
    else if r.kind != BuyOrder && r.kind != SellOrder then Some(InvalidKind)
    else if r.amount.denom == r.price.denom then Some(SameDenom)
    else if !(r.amount.amount > 0) then Some(AmountNotPositive)
    else if !(r.price.amount > 0) then Some(PriceNotPositive)
    else if r.kind == BuyOrder && !Covers(bal, r.sender, GetTotalPrice(r.amount, r.price)) then Some(InsufficientCoins)
    else if r.kind == SellOrder && !Covers(bal, r.sender, r.amount) then Some(InsufficientCoins)
    else None
  }

  predicate Screened(r: Request) {
    && (r.kind == BuyOrder || r.kind == SellOrder) && r.amount.denom != r.price.denom
    && r.amount.amount > 0 && r.price.amount > 0
  }

  function ToOrder(r: Request, id: int, open: int): LimitOrder {
    LimitOrder(id, r.sender, r.kind, Coin(r.amount.denom, open), r.price, r.expiresAt)
  }

  /** The book a request is matched against. */
  function MatchBook(books: BookStore, r: Request): BookRecord {
    BookFor(books, Opposite(r.kind), r.amount.denom, r.price.denom)
  }

  /** The book in which the unfilled part of a request rests. */
  function OwnBook(books: BookStore, r: Request): BookRecord
    requires !r.kind.UnknownKind?
  {
    BookFor(books, r.kind, r.amount.denom, r.price.denom)
  }

  /** The first stored order belongs to another market, so its match decision panics. */
  predicate MatchPanics(books: BookStore, r: Request) {
    var mb := MatchBook(books, r);
    mb.orders != [] && !IsMarket(mb, r.amount.denom, r.price.denom)
  }

  function Matched(x: State, r: Request): Settled
    requires BooksWellFormed(x.books) && Screened(r)
  {
    BookForWellFormed(x.books, Opposite(r.kind), r.amount.denom, r.price.denom);
    assert forall o :: o in MatchBook(x.books, r).orders ==> Positive(o);
    Settle(x.bal, r.sender, r.kind, MatchBook(x.books, r).orders, r.amount.amount, r.price.amount)
  }

  /** The state once the matching loop is over and the cleaned-up book is written back. */
  function AfterFill(x: State, r: Request): State
    requires BooksWellFormed(x.books) && Screened(r)
  {
    var s := Matched(x, r);
    var mb := MatchBook(x.books, r);
    State(s.bal, x.books[mb.key := mb.(orders := s.result.rest)], x.nextID)
  }

  datatype Storing = Storing(after: State, refusal: Option<Error>, orderID: int, rested: seq<LimitOrder>)

  /** Hand out a number; lock coins and rest the open part, if there is one. */
  function StoreUnfilled(x: State, r: Request, open: nat): Storing
    requires !r.kind.UnknownKind?
    requires r.price.amount > 0
  {
    if x.nextID.None? then Storing(x, Some(InvalidGenesis), -1, [])
    else
      var id := x.nextID.value;
      var y := x.(nextID := Some(id + 1));
      var o := ToOrder(r, id, open);
      var ob := OwnBook(x.books, r);
      assert Escrow(o).amount >= 0;
      if open == 0 then Storing(y, None, id, [])
      else if !IsMarket(ob, r.amount.denom, r.price.denom) || ob.kind != r.kind then Storing(y, Some(WrongBook), id, [])
      else if !Covers(x.bal, r.sender, Escrow(o)) then Storing(y, Some(InsufficientCoins), id, [])
      else
        Storing(
          y.(bal := Debited(x.bal, r.sender, Escrow(o)),
             books := x.books[ob.key := ob.(orders := Insert(ob.kind, ob.orders, o))]),
          None, id, [o])
  }

  function Reports(fills: seq<Fill>): seq<FilledLimitOrder> {
    if fills == [] then [] else [Report(fills[0])] + Reports(fills[1..])
  }

  /** Each report names the order that was filled, the amount of that fill, and the price the order was stored at. */
  lemma {:induction false} ReportsAt(fills: seq<Fill>)
    ensures |Reports(fills)| == |fills|
    ensures forall i :: 0 <= i < |fills| ==>
      Reports(fills)[i]
      == FilledLimitOrder(
           fills[i].maker.orderID, Coin(fills[i].maker.amount.denom, fills[i].amount), fills[i].maker.price)
  {
    if fills != [] {
      ReportsAt(fills[1..]);
    }
  }

  function Process(x: State, r: Request, now: int): Step
    requires BooksWellFormed(x.books)
  {
    var refusal := Screen(x.bal, r, now);
    if refusal.Some? then Step(x, Rejected(refusal.value), NO_FLOW)
    else if MatchPanics(x.books, r) then Step(x, Panicked, NO_FLOW)
    else
      var s := Matched(x, r);
      var y := AfterFill(x, r);
      if !s.ok then Step(y, Rejected(InsufficientCoins), Flow([], s.result.fills, []))
      else
        var st := StoreUnfilled(y, r, s.result.open);
        Step(st.after,
             if st.refusal.Some? then Rejected(st.refusal.value)
             else Accepted(st.orderID, Coin(r.amount.denom, s.result.open), Reports(s.result.fills)),
             Flow(st.rested, s.result.fills, []))
  }

  // ---- the expiry sweep ----

  function Unexpired(orders: seq<LimitOrder>, now: int): seq<LimitOrder> {
    if orders == [] then []
    else if orders[0].expiresAt < now then Unexpired(orders[1..], now)
    else [orders[0]] + Unexpired(orders[1..], now)
  }

  function Expired(orders: seq<LimitOrder>, now: int): seq<LimitOrder> {
    if orders == [] then []
    else if orders[0].expiresAt < now then [orders[0]] + Expired(orders[1..], now)
    else Expired(orders[1..], now)
  }

  /** The expired orders of all books, visited in the order of `keys`. */
  function CollectExpired(books: BookStore, keys: seq<string>, now: int): seq<LimitOrder>
    requires forall k :: k in keys ==> k in books
  {
    if keys == [] then [] else Expired(books[keys[0]].orders, now) + CollectExpired(books, keys[1..], now)
  }

  function Swept(books: BookStore, now: int): BookStore {
    map k | k in books :: books[k].(orders := Unexpired(books[k].orders, now))
  }

  function RefundAll(bal: Balances, orders: seq<LimitOrder>): Balances
    requires forall o :: o in orders ==> Positive(o)
    decreases |orders|
  {
    if orders == [] then bal
    else
      assert Positive(orders[0]);
      assert Escrow(orders[0]).amount >= 0;
      RefundAll(Credited(bal, orders[0].sender, Escrow(orders[0])), orders[1..])
  }

  lemma {:induction false} SplitByExpiry(orders: seq<LimitOrder>, now: int)
    ensures forall o :: o in Unexpired(orders, now) <==> o in orders && !(o.expiresAt < now)
    ensures forall o :: o in Expired(orders, now) <==> o in orders && o.expiresAt < now
  {
    if orders != [] {
      SplitByExpiry(orders[1..], now);
      assert orders == [orders[0]] + orders[1..];
    }
  }

  lemma {:induction false} CollectedPositive(books: BookStore, keys: seq<string>, now: int)
    requires BooksWellFormed(books)
    requires forall k :: k in keys ==> k in books
    ensures forall o :: o in CollectExpired(books, keys, now) ==> Positive(o)
  {
    if keys != [] {
      assert keys[0] in keys && forall k :: k in keys[1..] ==> k in keys;
      CollectedPositive(books, keys[1..], now);
      SplitByExpiry(books[keys[0]].orders, now);
    }
  }

  /** Remove every expired order and give its sender back what it had locked; `keys` is the iteration order. */
  function Sweep(x: State, now: int, keys: seq<string>): Step
    requires BooksWellFormed(x.books) && Enumerates(keys, x.books)
  {
    CollectedPositive(x.books, keys, now);
    var refunds := CollectExpired(x.books, keys, now);
    Step(State(RefundAll(x.bal, refunds), Swept(x.books, now), x.nextID), SweepDone, Flow([], [], refunds))
  }
}
