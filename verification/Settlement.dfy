/** Matching against the ledger: every execution pays the maker and releases the maker's escrow to the taker. */
module Settlement {
  import opened Seqs
  import opened Bank
  import opened Orders
  import opened Matching

  datatype Settled = Settled(bal: Balances, ok: bool, result: MatchResult)

  /** One execution: the taker pays the maker, then receives what the maker had locked. */
  function PayAndRelease(b: Balances, taker: Addr, fill: Fill): Balances
    requires Payment(fill).amount >= 0 && Release(fill).amount >= 0
  {
    Credited(SentIfCovered(b, taker, fill.maker.sender, Payment(fill)), taker, Release(fill))
  }

  lemma FillCoinsNonNegative(fill: Fill)
    requires fill.amount >= 0 && Positive(fill.maker)
    ensures Payment(fill).amount >= 0 && Release(fill).amount >= 0
  {
  }

  /** The matching loop with its transfers; a payment that the taker cannot make ends it with ok == false. */
  function Settle(b: Balances, taker: Addr, kind: OrderKind, orders: seq<LimitOrder>, want: nat, limit: int): Settled
    requires forall o :: o in orders ==> Positive(o)
    decreases |orders|
  {
    if Stops(orders, kind, want, limit) then Settled(b, true, MatchResult(orders, [], want))
    else
      var f := FillAmount(orders[0], want);
      var fill := Fill(orders[0], f);
      FillCoinsNonNegative(fill);
      if !Covers(b, taker, Payment(fill)) then Settled(b, false, MatchResult(orders, [], want))
      else
        var s := Settle(PayAndRelease(b, taker, fill), taker, kind, orders[1..], want - f, limit);
        s.(result := Consume(orders[0], f, s.result))
  }

  /** The coins a taker must own to be sure that `want` units at `limit` can be paid and locked. */
  function Required(kind: OrderKind, ad: Denom, pd: Denom, want: int, limit: int): Coin {
    if kind == BuyOrder then Coin(pd, want * limit) else Coin(ad, want)
  }

  /** Paying for one fill leaves enough for the rest of the order. */
  lemma FundsSurviveFill(
    b: Balances, taker: Addr, kind: OrderKind, fill: Fill, ad: Denom, pd: Denom, want: nat, limit: int)
    requires kind == BuyOrder || kind == SellOrder
    requires ad != pd && OnMarket(fill.maker, Opposite(kind), ad, pd)
    requires 0 <= fill.amount <= want && Eligible(kind, limit, fill.maker)
    requires Covers(b, taker, Required(kind, ad, pd, want, limit))
    ensures Payment(fill).amount >= 0 && Release(fill).amount >= 0
    ensures Covers(b, taker, Payment(fill))
    ensures Covers(PayAndRelease(b, taker, fill), taker, Required(kind, ad, pd, want - fill.amount, limit))
  {
    FillCoinsNonNegative(fill);
    if kind == BuyOrder {
      PartWithinWhole(fill.amount, want, fill.maker.price.amount, limit);
    }
  }

  lemma PartWithinWhole(f: int, want: int, p: int, limit: int)
    requires 0 <= f <= want && 0 <= p <= limit
    ensures f * p <= want * limit
    ensures (want - f) * limit <= want * limit - f * p
  {
    assert f * p <= f * limit;
    assert want * limit == (want - f) * limit + f * limit;
  }

  /** With the up-front funds no transfer fails: the loop performs exactly the match, and the taker can
      still cover whatever stays open. */
  lemma {:induction false} SettleFunded(
    b: Balances, taker: Addr, kind: OrderKind, orders: seq<LimitOrder>, want: nat, limit: int, ad: Denom, pd: Denom)
    requires kind == BuyOrder || kind == SellOrder
    requires ad != pd && AllOnMarket(orders, Opposite(kind), ad, pd)
    requires Covers(b, taker, Required(kind, ad, pd, want, limit))
    ensures var s := Settle(b, taker, kind, orders, want, limit);
      && s.ok && s.result == Match(orders, kind, want, limit)
      && Covers(s.bal, taker, Required(kind, ad, pd, s.result.open, limit))
    decreases |orders|
  {
    if !Stops(orders, kind, want, limit) {
      assert OnMarket(orders[0], Opposite(kind), ad, pd);
      var f := FillAmount(orders[0], want);
      var fill := Fill(orders[0], f);
      FundsSurviveFill(b, taker, kind, fill, ad, pd, want, limit);
      HeadTail(orders);
      SettleFunded(PayAndRelease(b, taker, fill), taker, kind, orders[1..], want - f, limit, ad, pd);
    }
  }

  // ---- exact balances ----

  /** How one fill changes the holdings of account `x` in denomination `d`; taker and maker may coincide. */
  function Gain(x: Addr, d: Denom, taker: Addr, fill: Fill): int {
    (if x == taker then In(Release(fill), d) - In(Payment(fill), d) else 0)
    + (if x == fill.maker.sender then In(Payment(fill), d) else 0)
  }

  function Gains(x: Addr, d: Denom, taker: Addr, fills: seq<Fill>): int {
    if fills == [] then 0 else Gain(x, d, taker, fills[0]) + Gains(x, d, taker, fills[1..])
  }

  lemma FillBalance(b: Balances, taker: Addr, fill: Fill, x: Addr, d: Denom)
    requires Payment(fill).amount >= 0 && Release(fill).amount >= 0
    requires Covers(b, taker, Payment(fill))
    ensures BalanceOf(PayAndRelease(b, taker, fill), x, d) == BalanceOf(b, x, d) + Gain(x, d, taker, fill)
  {
  }

  lemma {:induction false} SettleBalance(
    b: Balances, taker: Addr, kind: OrderKind, orders: seq<LimitOrder>, want: nat, limit: int, x: Addr, d: Denom)
    requires forall o :: o in orders ==> Positive(o)
    ensures var s := Settle(b, taker, kind, orders, want, limit);
      BalanceOf(s.bal, x, d) == BalanceOf(b, x, d) + Gains(x, d, taker, s.result.fills)
    decreases |orders|
  {
    if !Stops(orders, kind, want, limit) {
      var f := FillAmount(orders[0], want);
      var fill := Fill(orders[0], f);
      FillCoinsNonNegative(fill);
      if Covers(b, taker, Payment(fill)) {
        var b1 := PayAndRelease(b, taker, fill);
        FillBalance(b, taker, fill, x, d);
        HeadTail(orders);
        SettleBalance(b1, taker, kind, orders[1..], want - f, limit, x, d);
        var s := Settle(b1, taker, kind, orders[1..], want - f, limit);
        ConsTail(fill, s.result.fills);
      }
    }
  }

  /** The loop adds to the accounts exactly the escrow that the fills release: payments only move coins. */
  lemma {:induction false} SettleTotal(
    b: Balances, taker: Addr, kind: OrderKind, orders: seq<LimitOrder>, want: nat, limit: int, d: Denom)
    requires forall o :: o in orders ==> Positive(o)
    ensures var s := Settle(b, taker, kind, orders, want, limit);
      Total(s.bal, d) == Total(b, d) + SumFills(EscrowIn(d), s.result.fills)
    decreases |orders|
  {
    if !Stops(orders, kind, want, limit) {
      var f := FillAmount(orders[0], want);
      var fill := Fill(orders[0], f);
      FillCoinsNonNegative(fill);
      if Covers(b, taker, Payment(fill)) {
        var b1 := PayAndRelease(b, taker, fill);
        TotalSent(b, taker, fill.maker.sender, Payment(fill), d);
        TotalCredited(SentIfCovered(b, taker, fill.maker.sender, Payment(fill)), taker, Release(fill), d);
        HeadTail(orders);
        SettleTotal(b1, taker, kind, orders[1..], want - f, limit, d);
        var s := Settle(b1, taker, kind, orders[1..], want - f, limit);
        SumFillsCons(EscrowIn(d), fill, s.result.fills);
      }
    }
  }
}
