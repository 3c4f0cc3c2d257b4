/** The exchange keeper as it runs: a shared ledger, stored books and an order counter, edited in place by loops
    that are proved to compute the state machine of module Exchange. */
module Keeper {
  import opened Options
  import opened Seqs
  import opened MapSums
  import opened Bank
  import opened Orders
  import opened Books
  import opened Matching
  import opened Settlement
  import opened Exchange
  import opened Processing
  import opened Sweeping

  /** A partly run matching loop: `rest` and `fills` were produced before `s`. */
  function After(rest: seq<LimitOrder>, fills: seq<Fill>, s: Settled): Settled {
    s.(result := MatchResult(rest + s.result.rest, fills + s.result.fills, s.result.open))
  }

  lemma {:induction false} ReportsAppend(fills: seq<Fill>, fill: Fill)
    ensures Reports(fills + [fill]) == Reports(fills) + [Report(fill)]
  {
    if fills == [] {
      assert fills + [fill] == [fill];
    } else {
      ReportsAppend(fills[1..], fill);
      assert (fills + [fill])[1..] == fills[1..] + [fill];
    }
  }

  lemma ReportsNext(filled: seq<FilledLimitOrder>, fills: seq<Fill>, report: FilledLimitOrder, fill: Fill)
    requires filled == Reports(fills) && report == Report(fill)
    ensures filled + [report] == Reports(fills + [fill])
  {
    ReportsAppend(fills, fill);
  }

  /** The rest of a matching loop completes `whole`, given what was produced before. */
  ghost predicate Completes(
    whole: Settled, done: seq<LimitOrder>, fills: seq<Fill>,
    b: Balances, taker: Addr, kind: OrderKind, tail: seq<LimitOrder>, want: nat, limit: int)
  {
    (forall o :: o in tail ==> Positive(o)) && whole == After(done, fills, Settle(b, taker, kind, tail, want, limit))
  }

  /** One round of the loop: the execution moves from the part to come to the part done, or ends the loop. */
  lemma CompletesRound(
    whole: Settled, done: seq<LimitOrder>, fills: seq<Fill>,
    b: Balances, taker: Addr, kind: OrderKind, tail: seq<LimitOrder>, want: nat, limit: int)
    requires Completes(whole, done, fills, b, taker, kind, tail, want, limit) && tail != [] && want > 0
    ensures Positive(tail[0])
    ensures !Eligible(kind, limit, tail[0]) ==> whole == Settled(b, true, MatchResult(done + tail, fills, want))
    ensures Eligible(kind, limit, tail[0]) ==>
      var f := FillAmount(tail[0], want);
      var fill := Fill(tail[0], f);
      && Payment(fill).amount >= 0 && Release(fill).amount >= 0
      && if Covers(b, taker, Payment(fill)) then
           Completes(whole, done + Leftover(tail[0], f), fills + [fill], PayAndRelease(b, taker, fill),
             taker, kind, tail[1..], want - f, limit)
         else
           whole == Settled(b, false, MatchResult(done + tail, fills, want))
  {
    HeadTail(tail);
    var f := FillAmount(tail[0], want);
    var fill := Fill(tail[0], f);
    FillCoinsNonNegative(fill);
    if Eligible(kind, limit, tail[0]) && Covers(b, taker, Payment(fill)) {
      AfterConsume(done, fills, tail[0], f,
        Settle(PayAndRelease(b, taker, fill), taker, kind, tail[1..], want - f, limit));
    }
  }

  lemma AfterConsume(done: seq<LimitOrder>, fills: seq<Fill>, o: LimitOrder, f: nat, s: Settled)
    ensures After(done, fills, s.(result := Consume(o, f, s.result)))
        == After(done + Leftover(o, f), fills + [Fill(o, f)], s)
  {
    ConcatAssoc(done, Leftover(o, f), s.result.rest);
    ConcatAssoc(fills, [Fill(o, f)], s.result.fills);
  }

  /** Reducing the order in place and cleaning up later leaves what the match leaves over. */
  lemma StillOpenRound(orders: seq<LimitOrder>, i: nat, o: LimitOrder, f: int)
    requires i < |orders| && orders[i] == Reduced(o, f)
    ensures StillOpen(orders[..i + 1]) == StillOpen(orders[..i]) + Leftover(o, f)
  {
    assert orders[..i + 1] == orders[..i] + [orders[i]];
    StillOpenConcat(orders[..i], [orders[i]]);
  }

  /** What was cleaned up before position `i`, then the untouched orders from there on. */
  lemma StillOpenSplit(orders: seq<LimitOrder>, i: nat)
    requires i <= |orders| && forall o :: o in orders[i..] ==> Positive(o)
    ensures StillOpen(orders) == StillOpen(orders[..i]) + orders[i..]
  {
    StillOpenConcat(orders[..i], orders[i..]);
    assert orders == orders[..i] + orders[i..];
    StillOpenKeepsPositive(orders[i..]);
  }

  /** The loop at position `i` of the working copy: earlier orders are reduced in place, later ones untouched. */
  ghost predicate InLoop(
    whole: Settled, ad: Denom, pd: Denom, orders: seq<LimitOrder>, i: nat, fills: seq<Fill>,
    b: Balances, want: nat, r: Request)
  {
    && i <= |orders| && AllOnMarket(orders[i..], Opposite(r.kind), ad, pd)
    && Completes(whole, StillOpen(orders[..i]), fills, b, r.sender, r.kind, orders[i..], want, r.price.amount)
  }

  lemma InLoopStart(whole: Settled, ad: Denom, pd: Denom, orders: seq<LimitOrder>, b: Balances, r: Request)
    requires Screened(r) && AllOnMarket(orders, Opposite(r.kind), ad, pd)
    requires whole == Settle(b, r.sender, r.kind, orders, r.amount.amount, r.price.amount)
    ensures InLoop(whole, ad, pd, orders, 0, [], b, r.amount.amount, r)
  {
    assert orders[0..] == orders;
  }

  lemma InLoopAt(
    whole: Settled, ad: Denom, pd: Denom, orders: seq<LimitOrder>, i: nat, fills: seq<Fill>,
    b: Balances, want: nat, r: Request)
    requires InLoop(whole, ad, pd, orders, i, fills, b, want, r) && i < |orders|
    ensures OnMarket(orders[i], Opposite(r.kind), ad, pd)
  {
    assert orders[i] == orders[i..][0];
  }

  /** Reducing the order at position `i` moves it from the part to come to the part done. */
  lemma SlicesNext(orders: seq<LimitOrder>, i: nat, f: int, orders': seq<LimitOrder>)
    requires i < |orders| && orders' == orders[i := Reduced(orders[i], f)]
    ensures orders[i..] != [] && orders[i..][0] == orders[i]
    ensures orders'[i + 1..] == orders[i..][1..] && |orders'| == |orders|
    ensures StillOpen(orders'[..i + 1]) == StillOpen(orders[..i]) + Leftover(orders[i], f)
  {
    TakeNext(orders, i);
    UpdateParts(orders, i, Reduced(orders[i], f));
    StillOpenRound(orders', i, orders[i], f);
  }

  /** After an execution the loop continues at the next position. */
  lemma InLoopNext(
    whole: Settled, ad: Denom, pd: Denom, orders: seq<LimitOrder>, i: nat, fills: seq<Fill>,
    b: Balances, want: nat, r: Request,
    fill: Fill, orders': seq<LimitOrder>, i': nat, fills': seq<Fill>, b': Balances, want': nat)
    requires InLoop(whole, ad, pd, orders, i, fills, b, want, r)
    requires i < |orders| && want > 0 && Positive(orders[i])
    requires fill == Fill(orders[i], FillAmount(orders[i], want)) && Eligible(r.kind, r.price.amount, orders[i])
    requires Payment(fill).amount >= 0 && Release(fill).amount >= 0 && Covers(b, r.sender, Payment(fill))
    requires orders' == orders[i := Reduced(orders[i], fill.amount)] && fills' == fills + [fill]
    requires b' == PayAndRelease(b, r.sender, fill) && want' == want - fill.amount && i' == i + 1
    ensures InLoop(whole, ad, pd, orders', i', fills', b', want', r)
  {
    SlicesNext(orders, i, fill.amount, orders');
    SuffixMembers(orders[i..], 1);
    CompletesRound(whole, StillOpen(orders[..i]), fills, b, r.sender, r.kind, orders[i..], want, r.price.amount);
  }

  /** When the loop ends, the cleaned-up working copy and what was collected are the result of the whole match. */
  lemma InLoopExit(
    whole: Settled, ad: Denom, pd: Denom, orders: seq<LimitOrder>, i: nat, fills: seq<Fill>,
    b: Balances, want: nat, r: Request, ok: bool)
    requires InLoop(whole, ad, pd, orders, i, fills, b, want, r)
    requires ok ==> i == |orders| || want == 0 || !Eligible(r.kind, r.price.amount, orders[i])
    requires !ok ==>
      && i < |orders| && want > 0 && Eligible(r.kind, r.price.amount, orders[i]) && Positive(orders[i])
      && !Covers(b, r.sender, Payment(Fill(orders[i], FillAmount(orders[i], want))))
    ensures whole == Settled(b, ok, MatchResult(StillOpen(orders), fills, want))
  {
    StillOpenSplit(orders, i);
    if i < |orders| {
      assert orders[i] == orders[i..][0];
      if want > 0 {
        CompletesRound(whole, StillOpen(orders[..i]), fills, b, r.sender, r.kind, orders[i..], want, r.price.amount);
      }
    }
  }

  lemma {:induction false} CollectAppend(books: BookStore, keys: seq<string>, k: string, now: int)
    requires k in books && forall j :: j in keys ==> j in books
    ensures CollectExpired(books, keys + [k], now) == CollectExpired(books, keys, now) + Expired(books[k].orders, now)
  {
    if keys == [] {
      assert keys + [k] == [k];
    } else {
      HeadTail(keys);
      CollectAppend(books, keys[1..], k, now);
      ConcatTail(keys, [k]);
      ConcatAssoc(Expired(books[keys[0]].orders, now), CollectExpired(books, keys[1..], now),
        Expired(books[k].orders, now));
    }
  }

  /** The books to write back so that every visited book becomes what `target` says. */
  ghost predicate Updates(updates: seq<BookRecord>, books: BookStore, target: BookStore, visited: seq<string>) {
    && (forall b :: b in updates ==> b.key in target && target[b.key] == b)
    && (forall k :: k in visited && k in books && k in target ==>
          target[k] == books[k] || (target[k] in updates && target[k].key == k))
  }

  /** Visiting one more book. */
  lemma UpdatesNext(updates: seq<BookRecord>, books: BookStore, now: int, visited: seq<string>,
      k: string, more: seq<BookRecord>)
    requires Updates(updates, books, Swept(books, now), visited) && k in books && books[k].key == k
    requires more == if Expired(books[k].orders, now) == [] then []
                     else [books[k].(orders := Unexpired(books[k].orders, now))]
    ensures Updates(updates + more, books, Swept(books, now), visited + [k])
  {
    if Expired(books[k].orders, now) == [] {
      SplitByExpiry(books[k].orders, now);
      NothingExpires(books[k].orders, now);
    } else {
      assert more[0] in updates + more;
    }
  }

  datatype Verdict = Panics | NoMatch | Unpaid | Executed

  class ExchangeKeeper {
    const bank: Ledger
    var books: BookStore
    var nextOrderID: Option<int>

    function Snapshot(): State
      reads this, bank
    {
      State(bank.balances, books, nextOrderID)
    }

    ghost predicate Valid()
      reads this, bank
    {
      Exchange.Valid(Snapshot())
    }

    constructor InitGenesis(bank: Ledger, startingOrderID: int)
      ensures this.bank == bank && books == map[] && nextOrderID == Some(startingOrderID)
      ensures Valid()
    {
      this.bank, books, nextOrderID := bank, map[], Some(startingOrderID);
    }

    method GetOrderBook(kind: OrderKind, amountDenom: Denom, priceDenom: Denom) returns (ob: OrderBook)
      requires !kind.UnknownKind?
      ensures fresh(ob) && ob.Record() == BookFor(books, kind, amountDenom, priceDenom)
    {
      var key := MakeKeyOrderBook(kind, amountDenom, priceDenom);
      if key !in books {
        ob := new OrderBook(BookRecord(key, kind, amountDenom, priceDenom, []));
      } else {
        ob := new OrderBook(books[key]);
      }
    }

    method SetOrderBook(record: BookRecord)
      modifies this`books
      ensures books == old(books)[record.key := record]
    {
      books := books[record.key := record];
    }

    method GetNewOrderID() returns (id: Option<int>)
      modifies this`nextOrderID
      ensures id == old(nextOrderID)
      ensures nextOrderID == if id.None? then None else Some(id.value + 1)
    {
      id := nextOrderID;
      if id.Some? {
        nextOrderID := Some(id.value + 1);
      }
    }

    method SendAndUnlockCoins(a: Addr, b: Addr, fromAToB: Coin, unlockForA: Coin) returns (ok: bool)
      requires fromAToB.amount >= 0 && unlockForA.amount >= 0
      modifies bank
      ensures ok <==> old(Covers(bank.balances, a, fromAToB))
      ensures bank.balances
              == if ok then Credited(SentIfCovered(old(bank.balances), a, b, fromAToB), a, unlockForA)
                else old(bank.balances)
    {
      ok := bank.SendCoins(a, b, fromAToB);
      if ok {
        ok := bank.AddCoins(a, unlockForA);
      }
    }

    method FillOrderIfPossible(r: Request)
      returns (panicked: bool, ok: bool, unfilled: nat, filled: seq<FilledLimitOrder>)
      requires BooksWellFormed(books) && Screened(r)
      modifies bank, this`books
      ensures panicked <==> old(MatchPanics(books, r))
      ensures panicked ==> Snapshot() == old(Snapshot())
      ensures !panicked ==>
        && Snapshot() == AfterFill(old(Snapshot()), r)
        && ok == Matched(old(Snapshot()), r).ok
        && unfilled == Matched(old(Snapshot()), r).result.open
        && var fills := Matched(old(Snapshot()), r).result.fills;
        && filled == Reports(fills) && |filled| == |fills|
        && forall i :: 0 <= i < |filled| ==>
             && filled[i].orderID == fills[i].maker.orderID && filled[i].filledPrice == fills[i].maker.price
             && filled[i].filledAmount == Coin(fills[i].maker.amount.denom, fills[i].amount)
    {
      var matchingKind := if r.kind == SellOrder then BuyOrder else SellOrder;
      var orderBook := GetOrderBook(matchingKind, r.amount.denom, r.price.denom);
      BookForWellFormed(books, matchingKind, r.amount.denom, r.price.denom);
      ghost var fills;
      panicked, ok, unfilled, filled, fills := MatchLoop(orderBook, r);
      if !panicked {
        ReportsAt(fills);
        orderBook.RemoveFilledLimitOrders();
        SetOrderBook(orderBook.Record());
      }
    }

    /** One round of the loop: decide on the stored order at position `i`, transfer, and reduce it in place. The
        ghost parameters say where the loop stands in the whole match. */
    method MatchRound(orderBook: OrderBook, i: nat, r: Request, unfilled: nat,
        ghost whole: Settled, ghost fills: seq<Fill>)
      returns (verdict: Verdict, report: FilledLimitOrder, rest: nat, ghost fill: Fill)
      requires Screened(r) && unfilled > 0 && i < |orderBook.orders|
      requires InLoop(whole, orderBook.amountDenom, orderBook.priceDenom, orderBook.orders,
                      i, fills, bank.balances, unfilled, r)
      modifies bank, orderBook
      ensures |orderBook.orders| == |old(orderBook.orders)|
      ensures verdict.Panics? <==> !(orderBook.amountDenom == r.amount.denom && orderBook.priceDenom == r.price.denom)
      ensures verdict.Panics? ==> bank.balances == old(bank.balances)
      ensures verdict.NoMatch? || verdict.Unpaid? ==>
        whole == Settled(bank.balances, verdict.NoMatch?, MatchResult(StillOpen(orderBook.orders), fills, unfilled))
      ensures verdict.Executed? ==>
        && report == Report(fill)
        && InLoop(whole, orderBook.amountDenom, orderBook.priceDenom, orderBook.orders,
                  i + 1, fills + [fill], bank.balances, rest, r)
    {
      ghost var ad, pd, orders, bal := orderBook.amountDenom, orderBook.priceDenom, orderBook.orders, bank.balances;
      InLoopAt(whole, ad, pd, orders, i, fills, bal, unfilled, r);
      var storedOrder := orderBook.orders[i];
      var decision := DoesFill(storedOrder, r.kind, Coin(r.amount.denom, unfilled), r.price);
      fill := Fill(storedOrder, FillAmount(storedOrder, unfilled));
      report, rest := FilledLimitOrder(storedOrder.orderID, storedOrder.amount, storedOrder.price), unfilled;
      FillCoinsNonNegative(fill);
      DoesFillPanics(storedOrder, r.kind, Coin(r.amount.denom, unfilled), r.price);
      if decision.MismatchPanic? {
        return Panics, report, rest, fill;
      }
      DoesFillOnMarket(storedOrder, r.kind, Coin(r.amount.denom, unfilled), r.price);
      if !decision.fills {
        InLoopExit(whole, ad, pd, orders, i, fills, bal, unfilled, r, true);
        return NoMatch, report, rest, fill;
      }
      var fillAmount := decision.fillAmount;
      var fillTotalPrice := GetTotalPrice(fillAmount, decision.fillPrice);
      var toStoredSender, toUnlock;
      if r.kind == BuyOrder {
        toStoredSender, toUnlock := fillTotalPrice, fillAmount;
      } else {
        toStoredSender, toUnlock := fillAmount, fillTotalPrice;
      }
      var ok := SendAndUnlockCoins(r.sender, storedOrder.sender, toStoredSender, toUnlock);
      if !ok {
        InLoopExit(whole, ad, pd, orders, i, fills, bal, unfilled, r, false);
        return Unpaid, report, rest, fill;
      }
      report := FilledLimitOrder(storedOrder.orderID, fillAmount, decision.fillPrice);
      rest := unfilled - fillAmount.amount;
      orderBook.orders :=
        orderBook.orders[i := WithAmount(storedOrder, storedOrder.amount.amount - fillAmount.amount)];
      InLoopNext(whole, ad, pd, orders, i, fills, bal, unfilled, r, fill,
                 orderBook.orders, i + 1, fills + [fill], bank.balances, rest);
      verdict := Executed;
    }

    /** The matching loop on the working copy of the opposite book. */
    method MatchLoop(orderBook: OrderBook, r: Request)
      returns (panicked: bool, ok: bool, unfilled: nat, filled: seq<FilledLimitOrder>, ghost fills: seq<Fill>)
      requires Screened(r)
      requires AllOnMarket(orderBook.orders, Opposite(r.kind), orderBook.amountDenom, orderBook.priceDenom)
      modifies bank, orderBook
      ensures panicked
              <==> old(orderBook.orders) != [] && !IsMarket(old(orderBook.Record()), r.amount.denom, r.price.denom)
      ensures panicked ==> bank.balances == old(bank.balances)
      ensures !panicked ==>
        Settle(old(bank.balances), r.sender, r.kind, old(orderBook.orders), r.amount.amount, r.price.amount)
        == Settled(bank.balances, ok, MatchResult(StillOpen(orderBook.orders), fills, unfilled))
      ensures filled == Reports(fills)
    {
      ghost var whole := Settle(bank.balances, r.sender, r.kind, orderBook.orders, r.amount.amount, r.price.amount);
      ghost var ad, pd, first := orderBook.amountDenom, orderBook.priceDenom, orderBook.orders;
      panicked, ok, unfilled, filled, fills := false, true, r.amount.amount, [], [];
      var i := 0;
      InLoopStart(whole, ad, pd, orderBook.orders, bank.balances, r);
      while i < |orderBook.orders|
        invariant InLoop(whole, ad, pd, orderBook.orders, i, fills, bank.balances, unfilled, r)
        invariant ok && !panicked && filled == Reports(fills)
        invariant i == 0 ==> unfilled == r.amount.amount && bank.balances == old(bank.balances)
        invariant |orderBook.orders| == |first|
        invariant i > 0 ==> ad == r.amount.denom && pd == r.price.denom
      {
        if unfilled == 0 {
          break;
        }
        ghost var fill;
        var verdict, report, rest;
        verdict, report, rest, fill := MatchRound(orderBook, i, r, unfilled, whole, fills);
        if !verdict.Executed? {
          panicked, ok := verdict.Panics?, verdict.NoMatch?;
          return;
        }
        ReportsNext(filled, fills, report, fill);
        filled, fills, unfilled := filled + [report], fills + [fill], rest;
        i := i + 1;
      }
      InLoopExit(whole, ad, pd, orderBook.orders, i, fills, bank.balances, unfilled, r, true);
    }

    method StoreUnfilledLimitOrder(r: Request, amount: nat) returns (orderID: int, refusal: Option<Error>)
      requires !r.kind.UnknownKind? && r.price.amount > 0
      modifies bank, this`books, this`nextOrderID
      ensures var st := StoreUnfilled(old(Snapshot()), r, amount);
        Snapshot() == st.after && orderID == st.orderID && refusal == st.refusal
    {
      var newOrderID := GetNewOrderID();
      if newOrderID.None? {
        return -1, Some(InvalidGenesis);
      }
      orderID := newOrderID.value;
      if amount == 0 {
        return orderID, None;
      }
      var orderBook := GetOrderBook(r.kind, r.amount.denom, r.price.denom);
      var limitOrder := LimitOrder(orderID, r.sender, r.kind, Coin(r.amount.denom, amount), r.price, r.expiresAt);
      var ok := orderBook.AddLimitOrder(limitOrder);
      if !ok {
        return orderID, Some(WrongBook);
      }
      var coinToLock := if r.kind == BuyOrder then GetTotalPrice(limitOrder.amount, r.price) else limitOrder.amount;
      assert coinToLock == Escrow(limitOrder) && coinToLock.amount >= 0;
      ok := bank.SubtractCoins(r.sender, coinToLock);
      if !ok {
        return orderID, Some(InsufficientCoins);
      }
      SetOrderBook(orderBook.Record());
      refusal := None;
    }

    method ProcessLimitOrder(r: Request, now: int) returns (outcome: Outcome)
      requires Valid()
      modifies bank, this`books, this`nextOrderID
      ensures Valid()
      ensures var s := Process(old(Snapshot()), r, now);
        Snapshot() == s.after && outcome == s.outcome
    {
      ProcessKeepsValid(Snapshot(), r, now);
      if r.expiresAt < now { return Rejected(OrderExpired); }
      if r.kind != BuyOrder && r.kind != SellOrder { return Rejected(InvalidKind); }
      if r.amount.denom == r.price.denom { return Rejected(SameDenom); }
      if !(r.amount.amount > 0) { return Rejected(AmountNotPositive); }
      if !(r.price.amount > 0) { return Rejected(PriceNotPositive); }
      var totalPrice := GetTotalPrice(r.amount, r.price);
      if r.kind == BuyOrder {
        var enough := bank.HasCoins(r.sender, totalPrice);
        if !enough { return Rejected(InsufficientCoins); }
      }
      if r.kind == SellOrder {
        var enough := bank.HasCoins(r.sender, r.amount);
        if !enough { return Rejected(InsufficientCoins); }
      }
      var panicked, ok, unfilled, filled := FillOrderIfPossible(r);
      if panicked { return Panicked; }
      if !ok { return Rejected(InsufficientCoins); }
      var orderID, refusal := StoreUnfilledLimitOrder(r, unfilled);
      if refusal.Some? { return Rejected(refusal.value); }
      outcome := Accepted(orderID, Coin(r.amount.denom, unfilled), filled);
    }

    /** `keys` records the order in which the store iterator visited the books; any order is allowed.
        `panicked` is the branch taken when a refund fails. */
    method RefundExpiredLimitOrders(now: int) returns (panicked: bool, ghost keys: seq<string>)
      requires Valid()
      modifies bank, this`books
      ensures Valid() && !panicked
      ensures Enumerates(keys, old(books))
      ensures Snapshot() == Sweep(old(Snapshot()), now, keys).after
    {
      var obsToUpdate, osToRefund;
      assert forall k :: k in books ==> WellFormed(k, books[k]);
      obsToUpdate, osToRefund, keys := CollectOverBooks(now);
      SweepKeepsValid(Snapshot(), now, keys);
      CollectedPositive(books, keys, now);
      SaveBooks(obsToUpdate, Swept(books, now), keys);
      panicked := Refund(osToRefund);
    }

    /** The iteration over all books: what to write back and what to refund. */
    method CollectOverBooks(now: int)
      returns (obsToUpdate: seq<BookRecord>, osToRefund: seq<LimitOrder>, ghost keys: seq<string>)
      requires forall k :: k in books ==> books[k].key == k
      ensures Enumerates(keys, books)
      ensures osToRefund == CollectExpired(books, keys, now)
      ensures Updates(obsToUpdate, books, Swept(books, now), keys)
    {
      obsToUpdate, osToRefund, keys := [], [], [];
      var remaining := books.Keys;
      while remaining != {}
        invariant remaining <= books.Keys
        invariant forall k :: k in keys <==> k in books && k !in remaining
        invariant forall i, j :: 0 <= i < j < |keys| ==> keys[i] != keys[j]
        invariant osToRefund == CollectExpired(books, keys, now)
        invariant Updates(obsToUpdate, books, Swept(books, now), keys)
      {
        var k :| k in remaining;
        var containsExpired, newOrders, expired := SplitOrders(books[k].orders, now);
        var update := if containsExpired then [books[k].(orders := newOrders)] else [];
        CollectAppend(books, keys, k, now);
        UpdatesNext(obsToUpdate, books, now, keys, k, update);
        osToRefund := osToRefund + expired;
        obsToUpdate := obsToUpdate + update;
        remaining := remaining - {k};
        keys := keys + [k];
      }
    }

    method SaveBooks(obsToUpdate: seq<BookRecord>, ghost target: BookStore, ghost visited: seq<string>)
      requires target.Keys == books.Keys && Enumerates(visited, books) && Updates(obsToUpdate, books, target, visited)
      modifies this`books
      ensures books == target
    {
      assert forall k :: k in books ==> k in visited;
      for i := 0 to |obsToUpdate|
        invariant books.Keys == target.Keys
        invariant forall k :: k in books ==>
          books[k] == target[k] || (target[k] in obsToUpdate[i..] && target[k].key == k)
      {
        assert obsToUpdate[i..] == [obsToUpdate[i]] + obsToUpdate[i + 1..];
        SetOrderBook(obsToUpdate[i]);
      }
    }

    method Refund(osToRefund: seq<LimitOrder>) returns (panicked: bool)
      requires forall o :: o in osToRefund ==> Positive(o)
      modifies bank
      ensures !panicked && bank.balances == RefundAll(old(bank.balances), osToRefund)
    {
      for i := 0 to |osToRefund|
        invariant forall o :: o in osToRefund[i..] ==> Positive(o)
        invariant RefundAll(bank.balances, osToRefund[i..]) == RefundAll(old(bank.balances), osToRefund)
      {
        var order := osToRefund[i];
        assert osToRefund[i..][0] == order && osToRefund[i..][1..] == osToRefund[i + 1..];
        var coinsToUnlock := if order.kind == BuyOrder then GetTotalPrice(order.amount, order.price) else order.amount;
        assert Positive(order) && coinsToUnlock.amount >= 0;
        var ok := bank.AddCoins(order.sender, coinsToUnlock);
        if !ok {
          return true;
        }
      }
      panicked := false;
    }

    static method SplitOrders(orders: seq<LimitOrder>, now: int)
      returns (containsExpired: bool, newOrders: seq<LimitOrder>, expired: seq<LimitOrder>)
      ensures newOrders == Unexpired(orders, now) && expired == Expired(orders, now)
      ensures containsExpired <==> expired != []
    {
      containsExpired, newOrders, expired := false, [], [];
      for i := 0 to |orders|
        invariant newOrders + Unexpired(orders[i..], now) == Unexpired(orders, now)
        invariant expired + Expired(orders[i..], now) == Expired(orders, now)
        invariant containsExpired <==> expired != []
      {
        TakeNext(orders, i);
        ConcatAssoc(newOrders, [orders[i]], Unexpired(orders[i + 1..], now));
        ConcatAssoc(expired, [orders[i]], Expired(orders[i + 1..], now));
        if orders[i].expiresAt < now {
          containsExpired := true;
          expired := expired + [orders[i]];
        } else {
          newOrders := newOrders + [orders[i]];
        }
      }
    }
  }
}
