/** The match itself, free of balances: which stored orders a taker consumes, and why that choice is the best one. */
module Matching {
  import opened Seqs
  import opened Bank
  import opened Orders
  import opened Books

  /** What is left of the stored orders, what was executed, and what the taker still wants. */
  datatype MatchResult = MatchResult(rest: seq<LimitOrder>, fills: seq<Fill>, open: nat)

  function FillAmount(o: LimitOrder, want: nat): (f: nat)
    requires Positive(o)
    ensures f <= want && f <= o.amount.amount
    ensures want > 0 ==> f > 0
  {
    if want >= o.amount.amount then o.amount.amount else want
  }

  function Leftover(o: LimitOrder, f: int): seq<LimitOrder> {
    if o.amount.amount == f then [] else [Reduced(o, f)]
  }

  lemma SumLeftover(w: Weight, o: LimitOrder, f: int, rest: seq<LimitOrder>)
    ensures SumOrders(w, Leftover(o, f) + rest)
        == (if o.amount.amount == f then 0 else WeightOf(w, Reduced(o, f))) + SumOrders(w, rest)
  {
    if o.amount.amount == f {
      assert Leftover(o, f) + rest == rest;
    } else {
      SumOrdersCons(w, Reduced(o, f), rest);
    }
  }

  /** Put the execution of `f` units of `o` in front of `r`. */
  function Consume(o: LimitOrder, f: nat, r: MatchResult): MatchResult {
    MatchResult(Leftover(o, f) + r.rest, [Fill(o, f)] + r.fills, r.open)
  }

  predicate Stops(orders: seq<LimitOrder>, kind: OrderKind, want: nat, limit: int) {
    orders == [] || want == 0 || !Eligible(kind, limit, orders[0])
  }

  function Match(orders: seq<LimitOrder>, kind: OrderKind, want: nat, limit: int): MatchResult
    requires forall o :: o in orders ==> Positive(o)
  {
    if Stops(orders, kind, want, limit) then MatchResult(orders, [], want)
    else
      var f := FillAmount(orders[0], want);
      Consume(orders[0], f, Match(orders[1..], kind, want - f, limit))
  }

  function Volume(fills: seq<Fill>): int {
    if fills == [] then 0 else fills[0].amount + Volume(fills[1..])
  }

  function Cost(fills: seq<Fill>): int {
    if fills == [] then 0 else fills[0].amount * fills[0].maker.price.amount + Cost(fills[1..])
  }

  /** One round of the match. */
  lemma MatchStep(orders: seq<LimitOrder>, kind: OrderKind, want: nat, limit: int) returns (f: nat, t: MatchResult)
    requires forall o :: o in orders ==> Positive(o)
    requires !Stops(orders, kind, want, limit)
    ensures Positive(orders[0]) && (forall o :: o in orders[1..] ==> Positive(o))
    ensures f == FillAmount(orders[0], want) && t == Match(orders[1..], kind, want - f, limit)
    ensures var r := Match(orders, kind, want, limit);
      && r.rest == Leftover(orders[0], f) + t.rest && r.open == t.open
      && r.fills != [] && r.fills[0] == Fill(orders[0], f) && r.fills[1..] == t.fills
  {
    HeadTail(orders);
    f := FillAmount(orders[0], want);
    t := Match(orders[1..], kind, want - f, limit);
    ConsTail(Fill(orders[0], f), t.fills);
  }

  // ---- shape ----

  /** The i-th fill executes the i-th stored order at an acceptable price, completely unless it is the last. */
  ghost predicate FillsInOrder(fills: seq<Fill>, orders: seq<LimitOrder>, kind: OrderKind, limit: int) {
    && |fills| <= |orders|
    && forall i :: 0 <= i < |fills| ==>
         && fills[i].maker == orders[i]
         && 0 < fills[i].amount <= orders[i].amount.amount
         && Eligible(kind, limit, orders[i])
         && (i < |fills| - 1 ==> fills[i].amount == orders[i].amount.amount)
  }

  /** Fills are a prefix of the book in order, all but the last consume their order fully, every fill is
      positive and at an acceptable stored price, and filled + open = requested. */
  lemma {:induction false} MatchShape(orders: seq<LimitOrder>, kind: OrderKind, want: nat, limit: int)
    requires forall o :: o in orders ==> Positive(o)
    ensures var r := Match(orders, kind, want, limit);
      FillsInOrder(r.fills, orders, kind, limit) && Volume(r.fills) + r.open == want
  {
    if !Stops(orders, kind, want, limit) {
      var f, t := MatchStep(orders, kind, want, limit);
      MatchShape(orders[1..], kind, want - f, limit);
      if f < orders[0].amount.amount {
        assert t.fills == [];
      }
      FillsInOrderCons(Match(orders, kind, want, limit).fills, orders, kind, limit);
    }
  }

  lemma FillsInOrderCons(fills: seq<Fill>, orders: seq<LimitOrder>, kind: OrderKind, limit: int)
    requires fills != [] && orders != [] && FillsInOrder(fills[1..], orders[1..], kind, limit)
    requires fills[0].maker == orders[0] && 0 < fills[0].amount <= orders[0].amount.amount
    requires Eligible(kind, limit, orders[0]) && (fills[1..] == [] || fills[0].amount == orders[0].amount.amount)
    ensures FillsInOrder(fills, orders, kind, limit)
  {
    forall i | 0 < i < |fills|
      ensures fills[i] == fills[1..][i - 1] && orders[i] == orders[1..][i - 1]
    {
    }
  }

  /** The part of the last matched order that was not consumed. */
  function Remainder(fills: seq<Fill>): seq<LimitOrder> {
    if fills == [] then []
    else var last := fills[|fills| - 1]; Leftover(last.maker, last.amount)
  }

  /** The book afterwards: the orders past the fills, preceded by the unconsumed part of the last one. */
  lemma {:induction false} MatchRest(orders: seq<LimitOrder>, kind: OrderKind, want: nat, limit: int)
    requires forall o :: o in orders ==> Positive(o)
    ensures var r := Match(orders, kind, want, limit);
      |r.fills| <= |orders| && r.rest == Remainder(r.fills) + orders[|r.fills|..]
  {
    if !Stops(orders, kind, want, limit) {
      var f, t := MatchStep(orders, kind, want, limit);
      MatchRest(orders[1..], kind, want - f, limit);
      var r := Match(orders, kind, want, limit);
      assert orders[1..][|t.fills|..] == orders[|r.fills|..];
      if t.fills == [] {
        assert Remainder(r.fills) == Leftover(orders[0], f);
      } else {
        assert Leftover(orders[0], f) == [];
        assert r.fills[|r.fills| - 1] == t.fills[|t.fills| - 1];
        assert Remainder(r.fills) == Remainder(t.fills);
      }
    }
  }

  /** Whatever the taker still wants, the rest of the book does not offer. */
  lemma {:induction false} MatchExhausts(orders: seq<LimitOrder>, kind: OrderKind, want: nat, limit: int)
    requires forall o :: o in orders ==> Positive(o)
    ensures var r := Match(orders, kind, want, limit);
      r.open > 0 ==> r.rest == [] || !Eligible(kind, limit, r.rest[0])
  {
    if !Stops(orders, kind, want, limit) {
      var f, t := MatchStep(orders, kind, want, limit);
      MatchExhausts(orders[1..], kind, want - f, limit);
    }
  }

  /** The book afterwards is a suffix of the book before, its first order possibly reduced. */
  lemma RestIsSuffix(orders: seq<LimitOrder>, kind: OrderKind, want: nat, limit: int)
    returns (k: nat, head: seq<LimitOrder>, f: int)
    requires forall o :: o in orders ==> Positive(o)
    ensures k <= |orders| && Match(orders, kind, want, limit).rest == head + orders[k..]
    ensures head == [] || (k > 0 && 0 < f < orders[k - 1].amount.amount && head == [Reduced(orders[k - 1], f)])
  {
    MatchShape(orders, kind, want, limit);
    MatchRest(orders, kind, want, limit);
    var fills := Match(orders, kind, want, limit).fills;
    k, head, f := |fills|, Remainder(fills), 0;
    if fills != [] {
      var last := fills[|fills| - 1];
      f := last.amount;
      assert last.maker == orders[k - 1];
      assert head == [] || head == [Reduced(orders[k - 1], last.amount)];
    }
  }

  /** Orders left in the book are orders that were there, with the same number and price, still on the market. */
  lemma RestMembers(orders: seq<LimitOrder>, kind: OrderKind, want: nat, limit: int,
      side: OrderKind, ad: Denom, pd: Denom)
    requires AllOnMarket(orders, side, ad, pd)
    ensures var rest := Match(orders, kind, want, limit).rest;
      && AllOnMarket(rest, side, ad, pd)
      && forall o :: o in rest ==> exists p :: p in orders && p.orderID == o.orderID && p.price == o.price
  {
    var k, head, f := RestIsSuffix(orders, kind, want, limit);
    SuffixMembers(orders, k);
    forall o | o in head + orders[k..]
      ensures OnMarket(o, side, ad, pd)
      ensures exists p :: p in orders && p.orderID == o.orderID && p.price == o.price
    {
      var p := if o in orders[k..] then o else orders[k - 1];
      assert p in orders && OnMarket(p, side, ad, pd);
    }
  }

  lemma RestInPriority(orders: seq<LimitOrder>, kind: OrderKind, want: nat, limit: int, side: OrderKind)
    requires (forall o :: o in orders ==> Positive(o)) && InPriority(side, orders)
    ensures InPriority(side, Match(orders, kind, want, limit).rest)
  {
    var k, head, f := RestIsSuffix(orders, kind, want, limit);
    SuffixInPriority(side, orders, k);
    if head == [] {
      assert head + orders[k..] == orders[k..];
    } else {
      SuffixInPriority(side, orders, k - 1);
      assert orders[k - 1..][1..] == orders[k..];
      ConsTail(head[0], orders[k..]);
      forall o | o in orders[k..]
        ensures Precedes(side, head[0], o)
      {
        assert Precedes(side, orders[k - 1], o);
      }
    }
  }

  /** A proportional weight of the book drops by exactly the weight of the fills. */
  lemma {:induction false} MatchFlow(orders: seq<LimitOrder>, kind: OrderKind, want: nat, limit: int, w: Weight)
    requires forall o :: o in orders ==> Positive(o)
    requires Proportional(w)
    ensures var r := Match(orders, kind, want, limit);
      SumOrders(w, r.rest) == SumOrders(w, orders) - SumFills(w, r.fills)
  {
    if !Stops(orders, kind, want, limit) {
      var f, t := MatchStep(orders, kind, want, limit);
      MatchFlow(orders[1..], kind, want - f, limit, w);
      FillTakesItsShare(w, orders[0], f);
      SumLeftover(w, orders[0], f, t.rest);
      assert WeightOf(w, WithAmount(orders[0], 0)) == 0;
    }
  }

  /** Matching never adds an order number to a book. */
  lemma {:induction false} MatchRemoves(orders: seq<LimitOrder>, kind: OrderKind, want: nat, limit: int, id: int)
    requires forall o :: o in orders ==> Positive(o)
    ensures SumOrders(RestingOf(id), Match(orders, kind, want, limit).rest) <= SumOrders(RestingOf(id), orders)
  {
    if !Stops(orders, kind, want, limit) {
      var f, t := MatchStep(orders, kind, want, limit);
      MatchRemoves(orders[1..], kind, want - f, limit, id);
      SumLeftover(RestingOf(id), orders[0], f, t.rest);
    }
  }

  // ---- depth ----

  /** How much the book offers at prices the taker accepts, wherever in the book it stands. */
  function EligibleDepth(orders: seq<LimitOrder>, kind: OrderKind, limit: int): int {
    if orders == [] then 0
    else
      (if Eligible(kind, limit, orders[0]) then orders[0].amount.amount else 0)
      + EligibleDepth(orders[1..], kind, limit)
  }

  /** In a sorted book, once an order is unacceptable so are all later ones. */
  lemma {:induction false} NoDepthPast(orders: seq<LimitOrder>, kind: OrderKind, limit: int)
    requires kind == BuyOrder || kind == SellOrder
    requires InPriority(Opposite(kind), orders)
    requires orders != [] && !Eligible(kind, limit, orders[0])
    ensures EligibleDepth(orders, kind, limit) == 0
    ensures forall o :: o in orders ==> !Eligible(kind, limit, o)
  {
    HeadTail(orders);
    if |orders| > 1 {
      assert orders[1] in orders[1..];
      NoDepthPast(orders[1..], kind, limit);
    }
  }

  lemma {:induction false} DepthNonNegative(orders: seq<LimitOrder>, kind: OrderKind, limit: int)
    requires forall o :: o in orders ==> Positive(o)
    ensures EligibleDepth(orders, kind, limit) >= 0
  {
    if orders != [] {
      HeadTail(orders);
      DepthNonNegative(orders[1..], kind, limit);
    }
  }

  /** The filled total is the smaller of the request and everything on offer at acceptable prices. */
  lemma {:induction false} MatchFillsDepth(orders: seq<LimitOrder>, kind: OrderKind, want: nat, limit: int)
    requires kind == BuyOrder || kind == SellOrder
    requires forall o :: o in orders ==> Positive(o)
    requires InPriority(Opposite(kind), orders)
    ensures Volume(Match(orders, kind, want, limit).fills) == Min(want, EligibleDepth(orders, kind, limit))
  {
    DepthNonNegative(orders, kind, limit);
    if Stops(orders, kind, want, limit) {
      if orders != [] && !Eligible(kind, limit, orders[0]) {
        NoDepthPast(orders, kind, limit);
      }
    } else {
      var f, t := MatchStep(orders, kind, want, limit);
      MatchFillsDepth(orders[1..], kind, want - f, limit);
      DepthNonNegative(orders[1..], kind, limit);
    }
  }

  // ---- limit prices and optimality ----

  /** Any way of taking `take[i]` units from the i-th stored order. */
  ghost predicate IsAllocation(take: seq<int>, orders: seq<LimitOrder>) {
    && |take| == |orders|
    && forall i :: 0 <= i < |take| ==> 0 <= take[i] <= orders[i].amount.amount
  }

  function Taken(take: seq<int>): int {
    if take == [] then 0 else take[0] + Taken(take[1..])
  }

  function CostOf(take: seq<int>, orders: seq<LimitOrder>): int
    requires |take| == |orders|
  {
    if take == [] then 0 else take[0] * orders[0].price.amount + CostOf(take[1..], orders[1..])
  }

  /** How much worse than `pivot` the price `p` is for the taker. */
  function Excess(kind: OrderKind, p: int, pivot: int): int {
    if kind == BuyOrder then p - pivot else pivot - p
  }

  function FillExcess(kind: OrderKind, fills: seq<Fill>, pivot: int): int {
    if fills == [] then 0
    else fills[0].amount * Excess(kind, fills[0].maker.price.amount, pivot) + FillExcess(kind, fills[1..], pivot)
  }

  function TakeExcess(kind: OrderKind, take: seq<int>, orders: seq<LimitOrder>, pivot: int): int
    requires |take| == |orders|
  {
    if take == [] then 0
    else take[0] * Excess(kind, orders[0].price.amount, pivot) + TakeExcess(kind, take[1..], orders[1..], pivot)
  }

  lemma {:induction false} FillExcessIsCost(kind: OrderKind, fills: seq<Fill>, pivot: int)
    ensures FillExcess(kind, fills, pivot)
            == if kind == BuyOrder then Cost(fills) - Volume(fills) * pivot else Volume(fills) * pivot - Cost(fills)
  {
    if fills != [] {
      FillExcessIsCost(kind, fills[1..], pivot);
      var f, p, v := fills[0].amount, fills[0].maker.price.amount, Volume(fills[1..]);
      assert f * (p - pivot) == f * p - f * pivot && f * (pivot - p) == f * pivot - f * p;
      assert (f + v) * pivot == f * pivot + v * pivot;
    }
  }

  lemma {:induction false} TakeExcessIsCost(kind: OrderKind, take: seq<int>, orders: seq<LimitOrder>, pivot: int)
    requires |take| == |orders|
    ensures TakeExcess(kind, take, orders, pivot)
            == if kind == BuyOrder then CostOf(take, orders) - Taken(take) * pivot
               else Taken(take) * pivot - CostOf(take, orders)
  {
    if take != [] {
      TakeExcessIsCost(kind, take[1..], orders[1..], pivot);
      var f, p, v := take[0], orders[0].price.amount, Taken(take[1..]);
      assert f * (p - pivot) == f * p - f * pivot && f * (pivot - p) == f * pivot - f * p;
      assert (f + v) * pivot == f * pivot + v * pivot;
    }
  }

  lemma {:induction false} NoFillExceedsLimit(orders: seq<LimitOrder>, kind: OrderKind, want: nat, limit: int)
    requires forall o :: o in orders ==> Positive(o)
    ensures FillExcess(kind, Match(orders, kind, want, limit).fills, limit) <= 0
  {
    if !Stops(orders, kind, want, limit) {
      var f, t := MatchStep(orders, kind, want, limit);
      NoFillExceedsLimit(orders[1..], kind, want - f, limit);
      ScaleExcess(f, 0, Excess(kind, orders[0].price.amount, limit));
    }
  }

  /** The executed value never exceeds a buyer's limit and never falls short of a seller's. */
  lemma {:induction false} MatchHonoursLimit(orders: seq<LimitOrder>, kind: OrderKind, want: nat, limit: int)
    requires forall o :: o in orders ==> Positive(o)
    ensures var fills := Match(orders, kind, want, limit).fills;
      if kind == BuyOrder then Cost(fills) <= Volume(fills) * limit else Cost(fills) >= Volume(fills) * limit
  {
    NoFillExceedsLimit(orders, kind, want, limit);
    FillExcessIsCost(kind, Match(orders, kind, want, limit).fills, limit);
  }

  /** `pivot` is the price of the last fill; without fills, no stored price is better than it. */
  ghost predicate IsPivot(orders: seq<LimitOrder>, kind: OrderKind, fills: seq<Fill>, pivot: int) {
    if fills == [] then forall o :: o in orders ==> Excess(kind, o.price.amount, pivot) >= 0
    else fills[|fills| - 1].maker.price.amount == pivot
  }

  lemma {:induction false} NoExcessBelow(kind: OrderKind, take: seq<int>, orders: seq<LimitOrder>, pivot: int)
    requires IsAllocation(take, orders)
    requires forall o :: o in orders ==> Excess(kind, o.price.amount, pivot) >= 0
    ensures TakeExcess(kind, take, orders, pivot) >= 0
  {
    if take != [] {
      HeadTail(orders);
      HeadTail(take);
      NonNegativeProduct(take[0], Excess(kind, orders[0].price.amount, pivot));
      NoExcessBelow(kind, take[1..], orders[1..], pivot);
    }
  }

  /** Measured from the pivot price, the greedy fills are no worse than any allocation, order by order. */
  lemma {:induction false} GreedyExcess(
    orders: seq<LimitOrder>, kind: OrderKind, want: nat, limit: int, take: seq<int>, pivot: int)
    requires kind == BuyOrder || kind == SellOrder
    requires forall o :: o in orders ==> Positive(o)
    requires InPriority(Opposite(kind), orders)
    requires IsAllocation(take, orders)
    requires IsPivot(orders, kind, Match(orders, kind, want, limit).fills, pivot)
    ensures FillExcess(kind, Match(orders, kind, want, limit).fills, pivot) <= TakeExcess(kind, take, orders, pivot)
  {
    if Stops(orders, kind, want, limit) {
      NoExcessBelow(kind, take, orders, pivot);
    } else {
      var f, t := MatchStep(orders, kind, want, limit);
      HeadTail(orders);
      GreedyHead(orders, kind, want, limit, f, t, pivot);
      GreedyExcess(orders[1..], kind, want - f, limit, take[1..], pivot);
      ScaleExcess(f, take[0], Excess(kind, orders[0].price.amount, pivot));
    }
  }

  /** The first fill is at the pivot price, or takes its whole order at a price no worse than it; the pivot stays
      the pivot of the remaining orders. */
  lemma GreedyHead(orders: seq<LimitOrder>, kind: OrderKind, want: nat, limit: int, f: nat, t: MatchResult, pivot: int)
    requires kind == BuyOrder || kind == SellOrder
    requires (forall o :: o in orders ==> Positive(o)) && InPriority(Opposite(kind), orders)
    requires !Stops(orders, kind, want, limit) && (forall o :: o in orders[1..] ==> Positive(o))
    requires f == FillAmount(orders[0], want) && t == Match(orders[1..], kind, want - f, limit)
    requires IsPivot(orders, kind, Match(orders, kind, want, limit).fills, pivot)
    ensures IsPivot(orders[1..], kind, t.fills, pivot)
    ensures var e := Excess(kind, orders[0].price.amount, pivot);
      e == 0 || (e <= 0 && f == orders[0].amount.amount)
  {
    var f', t' := MatchStep(orders, kind, want, limit);
    if t.fills == [] {
      assert Match(orders, kind, want, limit).fills == [Fill(orders[0], f)];
      NoneBetter(orders, kind);
    } else {
      HeadTail(Match(orders, kind, want, limit).fills);
      MatchShape(orders[1..], kind, want - f, limit);
      BetterThanLater(orders, Opposite(kind), t.fills[|t.fills| - 1].maker);
    }
  }

  lemma NoneBetter(orders: seq<LimitOrder>, kind: OrderKind)
    requires kind == BuyOrder || kind == SellOrder
    requires orders != [] && InPriority(Opposite(kind), orders)
    ensures forall o :: o in orders[1..] ==> Excess(kind, o.price.amount, orders[0].price.amount) >= 0
  {
  }

  lemma BetterThanLater(orders: seq<LimitOrder>, side: OrderKind, o: LimitOrder)
    requires orders != [] && InPriority(side, orders) && o in orders[1..]
    ensures side == SellOrder ==> orders[0].price.amount <= o.price.amount
    ensures side == BuyOrder ==> orders[0].price.amount >= o.price.amount
  {
  }

  lemma NonNegativeProduct(a: int, b: int)
    requires a >= 0 && b >= 0
    ensures a * b >= 0
  {
  }

  lemma ScaleExcess(f: int, x: int, e: int)
    requires e == 0 || (e <= 0 && x <= f)
    ensures f * e <= x * e
  {
    if e < 0 {
      assert (f - x) * e <= 0;
    }
  }

  /** Greedy matching is optimal: among all ways of taking the same quantity from the stored orders, a buyer
      pays least and a seller collects most. */
  lemma GreedyIsOptimal(orders: seq<LimitOrder>, kind: OrderKind, want: nat, limit: int, take: seq<int>)
    requires kind == BuyOrder || kind == SellOrder
    requires forall o :: o in orders ==> Positive(o)
    requires InPriority(Opposite(kind), orders)
    requires IsAllocation(take, orders)
    requires Taken(take) == Volume(Match(orders, kind, want, limit).fills)
    ensures var cost := Cost(Match(orders, kind, want, limit).fills);
      if kind == BuyOrder then cost <= CostOf(take, orders) else cost >= CostOf(take, orders)
  {
    var fills := Match(orders, kind, want, limit).fills;
    if orders != [] {
      var pivot := if fills == [] then orders[0].price.amount else fills[|fills| - 1].maker.price.amount;
      assert orders == [orders[0]] + orders[1..];
      assert IsPivot(orders, kind, fills, pivot);
      GreedyExcess(orders, kind, want, limit, take, pivot);
      FillExcessIsCost(kind, fills, pivot);
      TakeExcessIsCost(kind, take, orders, pivot);
    }
  }
}
