/** The expiry sweep: exactly the expired orders leave, each refunded once to its own sender, in any iteration order. */
module Sweeping {
  import opened Seqs
  import opened MapSums
  import opened Bank
  import opened Orders
  import opened Books
  import opened Exchange
  import opened Processing

  lemma {:induction false} SumByExpiry(w: Weight, orders: seq<LimitOrder>, now: int)
    ensures SumOrders(w, Unexpired(orders, now)) == SumOrders(w, orders) - SumOrders(WhenExpired(now, w), orders)
    ensures SumOrders(w, Expired(orders, now)) == SumOrders(WhenExpired(now, w), orders)
  {
    if orders != [] {
      SumByExpiry(w, orders[1..], now);
      SumOrdersCons(w, orders[0], Expired(orders[1..], now));
      SumOrdersCons(w, orders[0], Unexpired(orders[1..], now));
    }
  }

  lemma {:induction false} CollectAgrees(books: BookStore, others: BookStore, keys: seq<string>, now: int)
    requires forall k :: k in keys ==> k in books && k in others && books[k] == others[k]
    ensures CollectExpired(books, keys, now) == CollectExpired(others, keys, now)
  {
    if keys != [] {
      assert keys[0] in keys && forall k :: k in keys[1..] ==> k in keys;
      CollectAgrees(books, others, keys[1..], now);
    }
  }

  /** Whatever the iteration order, the collected orders are the expired orders of all books. */
  lemma {:induction false} CollectedWeight(w: Weight, books: BookStore, keys: seq<string>, now: int)
    requires Enumerates(keys, books)
    ensures SumOrders(w, CollectExpired(books, keys, now)) == SumBooks(WhenExpired(now, w), books)
    decreases |keys|
  {
    if keys == [] {
      assert books == map[];
    } else {
      var k := keys[0];
      var others := books - {k};
      EnumeratesTail(keys, books);
      CollectedWeight(w, others, keys[1..], now);
      CollectAgrees(books, others, keys[1..], now);
      SumOrdersConcat(w, Expired(books[k].orders, now), CollectExpired(books, keys[1..], now));
      SumByExpiry(w, books[k].orders, now);
      MapSumExtract(books, BookWeight(WhenExpired(now, w)), k);
    }
  }

  lemma {:induction false} SweptWeight(w: Weight, books: BookStore, now: int)
    ensures SumBooks(w, Swept(books, now)) == SumBooks(w, books) - SumBooks(WhenExpired(now, w), books)
    decreases |books|
  {
    if books == map[] {
      assert Swept(books, now) == map[];
    } else {
      var k :| k in books;
      SweptWeight(w, books - {k}, now);
      assert Swept(books, now) - {k} == Swept(books - {k}, now);
      MapSumExtract(books, BookWeight(w), k);
      MapSumExtract(books, BookWeight(WhenExpired(now, w)), k);
      MapSumExtract(Swept(books, now), BookWeight(w), k);
      SumByExpiry(w, books[k].orders, now);
    }
  }

  /** Every weight of the books drops by exactly that of the refunded orders. */
  lemma SweepFlow(x: State, now: int, keys: seq<string>, w: Weight)
    requires BooksWellFormed(x.books) && Enumerates(keys, x.books)
    ensures var s := Sweep(x, now, keys);
      && SumBooks(w, s.after.books) == SumBooks(w, x.books) + Net(w, s.flow)
      && SumOrders(w, s.flow.refunded) == SumBooks(WhenExpired(now, w), x.books)
  {
    CollectedWeight(w, x.books, keys, now);
    SweptWeight(w, x.books, now);
  }

  // ---- balances ----

  lemma {:induction false} RefundBalance(bal: Balances, orders: seq<LimitOrder>, a: Addr, d: Denom)
    requires forall o :: o in orders ==> Positive(o)
    ensures BalanceOf(RefundAll(bal, orders), a, d) == BalanceOf(bal, a, d) + SumOrders(Owed(a, d), orders)
    decreases |orders|
  {
    if orders != [] {
      assert Positive(orders[0]) && Escrow(orders[0]).amount >= 0;
      HeadTail(orders);
      RefundBalance(Credited(bal, orders[0].sender, Escrow(orders[0])), orders[1..], a, d);
    }
  }

  lemma {:induction false} RefundTotal(bal: Balances, orders: seq<LimitOrder>, d: Denom)
    requires forall o :: o in orders ==> Positive(o)
    ensures Total(RefundAll(bal, orders), d) == Total(bal, d) + SumOrders(EscrowIn(d), orders)
    decreases |orders|
  {
    if orders != [] {
      assert Positive(orders[0]) && Escrow(orders[0]).amount >= 0;
      HeadTail(orders);
      TotalCredited(bal, orders[0].sender, Escrow(orders[0]), d);
      RefundTotal(Credited(bal, orders[0].sender, Escrow(orders[0])), orders[1..], d);
    }
  }

  /** Each account receives exactly what its own expired orders had locked, whatever the iteration order. */
  lemma SweepBalance(x: State, now: int, keys: seq<string>, a: Addr, d: Denom)
    requires BooksWellFormed(x.books) && Enumerates(keys, x.books)
    ensures BalanceOf(Sweep(x, now, keys).after.bal, a, d)
            == BalanceOf(x.bal, a, d) + SumBooks(WhenExpired(now, Owed(a, d)), x.books)
  {
    CollectedPositive(x.books, keys, now);
    RefundBalance(x.bal, CollectExpired(x.books, keys, now), a, d);
    CollectedWeight(Owed(a, d), x.books, keys, now);
  }

  lemma SweepTotal(x: State, now: int, keys: seq<string>, d: Denom)
    requires BooksWellFormed(x.books) && Enumerates(keys, x.books)
    ensures var s := Sweep(x, now, keys);
      Total(s.after.bal, d) == Total(x.bal, d) - Net(EscrowIn(d), s.flow)
  {
    CollectedPositive(x.books, keys, now);
    RefundTotal(x.bal, CollectExpired(x.books, keys, now), d);
  }

  lemma SweepConserves(x: State, now: int, keys: seq<string>, d: Denom)
    requires BooksWellFormed(x.books) && Enumerates(keys, x.books)
    ensures var y := Sweep(x, now, keys).after;
      Total(y.bal, d) + SumBooks(EscrowIn(d), y.books) == Total(x.bal, d) + SumBooks(EscrowIn(d), x.books)
  {
    SweepFlow(x, now, keys, EscrowIn(d));
    SweepTotal(x, now, keys, d);
  }

  // ---- books ----

  lemma {:induction false} UnexpiredInPriority(kind: OrderKind, orders: seq<LimitOrder>, now: int)
    requires InPriority(kind, orders)
    ensures InPriority(kind, Unexpired(orders, now))
  {
    if orders != [] {
      UnexpiredInPriority(kind, orders[1..], now);
      SplitByExpiry(orders[1..], now);
      if !(orders[0].expiresAt < now) {
        assert Unexpired(orders, now)[1..] == Unexpired(orders[1..], now);
      }
    }
  }

  lemma SweepKeepsBooks(books: BookStore, now: int)
    requires BooksWellFormed(books) && NeverCrossed(books)
    ensures BooksWellFormed(Swept(books, now)) && NeverCrossed(Swept(books, now))
  {
    forall k | k in books
      ensures WellFormed(k, Swept(books, now)[k])
      ensures forall o :: o in Swept(books, now)[k].orders ==> o in books[k].orders
    {
      SplitByExpiry(books[k].orders, now);
      UnexpiredInPriority(books[k].kind, books[k].orders, now);
    }
  }

  lemma SweepKeepsValid(x: State, now: int, keys: seq<string>)
    requires Valid(x) && Enumerates(keys, x.books)
    ensures Valid(Sweep(x, now, keys).after)
  {
    var s := Sweep(x, now, keys);
    SweepKeepsBooks(x.books, now);
    forall id
      ensures 0 <= Resting(id, s.after.books) <= Resting(id, x.books)
    {
      RefundsCounted(x, now, keys, id);
    }
  }

  lemma RefundsCounted(x: State, now: int, keys: seq<string>, id: int)
    requires BooksWellFormed(x.books) && Enumerates(keys, x.books)
    ensures var s := Sweep(x, now, keys);
      && Resting(id, s.after.books) >= 0 && SumOrders(RestingOf(id), s.flow.refunded) >= 0
      && Resting(id, x.books) == Resting(id, s.after.books) + SumOrders(RestingOf(id), s.flow.refunded)
  {
    SweepFlow(x, now, keys, RestingOf(id));
    RestingNonNegative(Swept(x.books, now), id);
    SumOrdersNonNegative(RestingOf(id), CollectExpired(x.books, keys, now));
  }

  /** `o` rests in some book. */
  ghost predicate Rests(o: LimitOrder, books: BookStore) {
    exists k :: k in books && o in books[k].orders
  }

  lemma {:induction false} CollectedMembers(books: BookStore, keys: seq<string>, now: int)
    requires forall k :: k in keys ==> k in books
    ensures forall o :: o in CollectExpired(books, keys, now) <==>
      o.expiresAt < now && exists k :: k in keys && o in books[k].orders
  {
    if keys != [] {
      assert keys == [keys[0]] + keys[1..];
      CollectedMembers(books, keys[1..], now);
      SplitByExpiry(books[keys[0]].orders, now);
    }
  }

  /** The sweep refunds exactly the resting orders that expired before now, each once, and keeps exactly the
      others, every book in its order. */
  lemma SweepIsExact(x: State, now: int, keys: seq<string>)
    requires Valid(x) && Enumerates(keys, x.books)
    ensures var s := Sweep(x, now, keys);
      && (forall o :: o in s.flow.refunded <==> Rests(o, x.books) && o.expiresAt < now)
      && (forall i, j :: 0 <= i < j < |s.flow.refunded| ==> s.flow.refunded[i].orderID != s.flow.refunded[j].orderID)
      && s.after.nextID == x.nextID && s.after.books.Keys == x.books.Keys
      && (forall k :: k in x.books ==> s.after.books[k] == x.books[k].(orders := s.after.books[k].orders))
      && (forall k, o :: k in x.books ==>
            (o in s.after.books[k].orders <==> o in x.books[k].orders && !(o.expiresAt < now)))
      && (forall k :: k in x.books ==> InPriority(x.books[k].kind, s.after.books[k].orders))
  {
    var s := Sweep(x, now, keys);
    CollectedMembers(x.books, keys, now);
    SweepKeepsValid(x, now, keys);
    forall k | k in x.books
      ensures forall o :: o in s.after.books[k].orders <==> o in x.books[k].orders && !(o.expiresAt < now)
      ensures InPriority(x.books[k].kind, s.after.books[k].orders)
    {
      SplitByExpiry(x.books[k].orders, now);
      assert WellFormed(k, s.after.books[k]);
    }
    forall i, j | 0 <= i < j < |s.flow.refunded|
      ensures s.flow.refunded[i].orderID != s.flow.refunded[j].orderID
    {
      var id := s.flow.refunded[i].orderID;
      if s.flow.refunded[j].orderID == id {
        CountsTwo(s.flow.refunded, i, j);
        RefundsCounted(x, now, keys, id);
        AtMostOnce(x, id);
      }
    }
  }

  lemma AtMostOnce(x: State, id: int)
    requires Valid(x)
    ensures Resting(id, x.books) <= 1
  {
  }

  lemma {:induction false} NothingExpires(orders: seq<LimitOrder>, now: int)
    requires forall o :: o in orders ==> !(o.expiresAt < now)
    ensures Unexpired(orders, now) == orders && Expired(orders, now) == []
  {
    if orders != [] {
      assert orders[0] in orders && forall o :: o in orders[1..] ==> o in orders;
      NothingExpires(orders[1..], now);
    }
  }

  lemma {:induction false} NothingCollected(books: BookStore, keys: seq<string>, now: int)
    requires forall k :: k in keys ==> k in books
    requires forall k, o :: k in books && o in books[k].orders ==> !(o.expiresAt < now)
    ensures CollectExpired(books, keys, now) == []
  {
    if keys != [] {
      assert keys[0] in keys && forall k :: k in keys[1..] ==> k in keys;
      NothingExpires(books[keys[0]].orders, now);
      NothingCollected(books, keys[1..], now);
    }
  }

  /** Sweeping again at the same time changes nothing and refunds nothing. */
  lemma SweepIsIdempotent(x: State, now: int, keys: seq<string>, again: seq<string>)
    requires Valid(x) && Enumerates(keys, x.books) && Enumerates(again, x.books)
    ensures BooksWellFormed(Swept(x.books, now)) && Enumerates(again, Swept(x.books, now))
    ensures var y := Sweep(x, now, keys).after;
      Sweep(y, now, again).after == y && Sweep(y, now, again).flow == NO_FLOW
  {
    SweepKeepsBooks(x.books, now);
    NothingLeftToSweep(x.books, now);
    NothingCollected(Swept(x.books, now), again, now);
    assert Swept(x.books, now).Keys == x.books.Keys;
  }

  lemma NothingLeftToSweep(books: BookStore, now: int)
    ensures Swept(Swept(books, now), now) == Swept(books, now)
    ensures forall k, o :: k in books && o in Swept(books, now)[k].orders ==> !(o.expiresAt < now)
  {
    forall k | k in books
      ensures forall o :: o in Swept(books, now)[k].orders ==> !(o.expiresAt < now)
      ensures Swept(Swept(books, now), now)[k] == Swept(books, now)[k]
    {
      SplitByExpiry(books[k].orders, now);
      NothingExpires(Swept(books, now)[k].orders, now);
    }
  }
}
