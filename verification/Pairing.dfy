/** The two books of a market appear in the store together, so a refused order changes nothing. */
module Pairing {
  import opened Bank
  import opened Orders
  import opened Books
  import opened Matching
  import opened Settlement
  import opened Exchange
  import opened Processing

  function PartnerKey(b: BookRecord): string {
    MakeKeyOrderBook(Opposite(b.kind), b.amountDenom, b.priceDenom)
  }

  /** The other side of the market of the book under `k` is stored too. */
  ghost predicate HasPartner(books: BookStore, k: string) {
    k in books ==>
      && PartnerKey(books[k]) in books
      && IsMarket(books[PartnerKey(books[k])], books[k].amountDenom, books[k].priceDenom)
  }

  ghost predicate Paired(books: BookStore) {
    forall k :: HasPartner(books, k)
  }

  /** The two keys of a pair of denominations end alike, whatever the kind. */
  lemma KeySuffix(k1: OrderKind, k2: OrderKind, a1: Denom, p1: Denom, a2: Denom, p2: Denom)
    requires !k1.UnknownKind? && !k2.UnknownKind?
    requires MakeKeyOrderBook(k1, a1, p1) == MakeKeyOrderBook(k1, a2, p2)
    ensures MakeKeyOrderBook(k2, a1, p1) == MakeKeyOrderBook(k2, a2, p2)
  {
    KeyFixesKind(k1, a1, p1, k1, a2, p2);
    var head := ORDER_BOOK_SUBSPACE + KindDigit(k2) + ":";
    assert MakeKeyOrderBook(k2, a1, p1) == head + (a1 + ":" + p1);
    assert MakeKeyOrderBook(k2, a2, p2) == head + (a2 + ":" + p2);
  }

  /** A market's two keys are both taken, by one market, or both free. */
  lemma OneOwner(books: BookStore, kind: OrderKind, ad: Denom, pd: Denom)
    requires BooksWellFormed(books) && Paired(books) && !kind.UnknownKind? && ad != pd
    requires MakeKeyOrderBook(kind, ad, pd) in books
    ensures MakeKeyOrderBook(Opposite(kind), ad, pd) in books
    ensures var b := books[MakeKeyOrderBook(kind, ad, pd)];
      IsMarket(books[MakeKeyOrderBook(Opposite(kind), ad, pd)], b.amountDenom, b.priceDenom)
  {
    var key := MakeKeyOrderBook(kind, ad, pd);
    var b := books[key];
    BookForWellFormed(books, kind, ad, pd);
    KeySuffix(kind, Opposite(kind), ad, pd, b.amountDenom, b.priceDenom);
    assert HasPartner(books, key);
  }

  lemma OwnersAgree(books: BookStore, r: Request)
    requires BooksWellFormed(books) && Paired(books) && Screened(r)
    ensures MatchBook(books, r).key in books <==> OwnBook(books, r).key in books
    ensures IsMarket(MatchBook(books, r), r.amount.denom, r.price.denom)
            <==> IsMarket(OwnBook(books, r), r.amount.denom, r.price.denom)
    ensures MatchBook(books, r).key !in books ==> MatchBook(books, r).orders == []
  {
    var ad, pd := r.amount.denom, r.price.denom;
    BookForWellFormed(books, r.kind, ad, pd);
    BookForWellFormed(books, Opposite(r.kind), ad, pd);
    assert Opposite(Opposite(r.kind)) == r.kind;
    if MakeKeyOrderBook(r.kind, ad, pd) in books {
      OneOwner(books, r.kind, ad, pd);
    }
    if MakeKeyOrderBook(Opposite(r.kind), ad, pd) in books {
      OneOwner(books, Opposite(r.kind), ad, pd);
    }
  }

  // ---- what keeps the pairing ----

  /** The same keys with the same markets. */
  ghost predicate SameMarkets(books: BookStore, others: BookStore) {
    && books.Keys == others.Keys
    && forall k :: k in books ==>
         && others[k].kind == books[k].kind
         && IsMarket(others[k], books[k].amountDenom, books[k].priceDenom)
  }

  lemma SameMarketsPaired(books: BookStore, others: BookStore)
    requires Paired(books) && SameMarkets(books, others)
    ensures Paired(others)
  {
    forall k
      ensures HasPartner(others, k)
    {
      assert HasPartner(books, k);
    }
  }

  /** Two new books that are each other's partner. */
  lemma NewPairPaired(books: BookStore, b: BookRecord, c: BookRecord)
    requires Paired(books) && b.key !in books && c.key !in books
    requires PartnerKey(b) == c.key && PartnerKey(c) == b.key && IsMarket(c, b.amountDenom, b.priceDenom)
    ensures Paired(books[b.key := b][c.key := c])
  {
    var after := books[b.key := b][c.key := c];
    forall k
      ensures HasPartner(after, k)
    {
      assert HasPartner(books, k);
    }
  }

  lemma SweepKeepsPaired(books: BookStore, now: int)
    requires Paired(books)
    ensures Paired(Swept(books, now))
  {
    SameMarketsPaired(books, Swept(books, now));
  }

  /** Without a stored opposite book nothing is matched, both books of the market are new, and the whole request
      rests in one of them. */
  lemma FirstOrderRests(x: State, r: Request, now: int)
    requires Valid(x) && Paired(x.books) && x.nextID.Some? && Runs(x, r, now)
    requires MatchBook(x.books, r).key !in x.books
    ensures Paired(Process(x, r, now).after.books)
  {
    FundsSuffice(x, r, now);
    OwnersAgree(x.books, r);
    AcceptedByLoop(x, r, now);
    OwnBookSurvivesFill(x, r, now);
    var mb, ob := MatchBook(x.books, r), OwnBook(x.books, r);
    assert Matched(x, r).result == MatchResult([], [], r.amount.amount);
    var o := ToOrder(r, x.nextID.value, r.amount.amount);
    NewPairPaired(x.books, mb, ob.(orders := Insert(ob.kind, ob.orders, o)));
  }

  /** Writing back the orders of a stored book moves no market. */
  lemma PutKeepsMarkets(books: BookStore, kind: OrderKind, ad: Denom, pd: Denom, orders: seq<LimitOrder>)
    requires BooksWellFormed(books) && !kind.UnknownKind? && ad != pd && MakeKeyOrderBook(kind, ad, pd) in books
    ensures var b := BookFor(books, kind, ad, pd);
      SameMarkets(books, books[b.key := b.(orders := orders)])
  {
    BookForWellFormed(books, kind, ad, pd);
  }

  lemma StoreKeepsMarkets(y: State, r: Request, open: nat)
    requires BooksWellFormed(y.books) && Screened(r)
    requires MakeKeyOrderBook(r.kind, r.amount.denom, r.price.denom) in y.books
    ensures SameMarkets(y.books, StoreUnfilled(y, r, open).after.books)
  {
    var st := StoreUnfilled(y, r, open);
    if st.rested != [] {
      var ob := OwnBook(y.books, r);
      PutKeepsMarkets(y.books, r.kind, r.amount.denom, r.price.denom, Insert(ob.kind, ob.orders, st.rested[0]));
    }
  }

  lemma LaterOrderKeepsMarkets(x: State, r: Request, now: int)
    requires Valid(x) && Paired(x.books) && Runs(x, r, now)
    requires MatchBook(x.books, r).key in x.books
    ensures SameMarkets(x.books, Process(x, r, now).after.books)
  {
    FillKeepsBooks(x, r, now);
    FundsSuffice(x, r, now);
    KeysDiffer(x, r);
    OwnersAgree(x.books, r);
    PutKeepsMarkets(x.books, Opposite(r.kind), r.amount.denom, r.price.denom, Matched(x, r).result.rest);
    StoreKeepsMarkets(AfterFill(x, r), r, Matched(x, r).result.open);
  }

  lemma ProcessKeepsPaired(x: State, r: Request, now: int)
    requires Valid(x) && Paired(x.books) && x.nextID.Some?
    ensures Paired(Process(x, r, now).after.books)
  {
    if Runs(x, r, now) {
      if MatchBook(x.books, r).key in x.books {
        LaterOrderKeepsMarkets(x, r, now);
        SameMarketsPaired(x.books, Process(x, r, now).after.books);
      } else {
        FirstOrderRests(x, r, now);
      }
    }
  }

  // ---- refusals ----

  /** In a paired store with a set counter, whether a request's market owns its keys decides: it is accepted exactly
      when it passes the checks and does, and it panics exactly when it does not and finds orders of the other market.
      Otherwise no balance and no book changes. */
  lemma OwnerDecides(x: State, r: Request, now: int)
    requires Valid(x) && Paired(x.books) && x.nextID.Some?
    ensures var s := Process(x, r, now);
      var mb := MatchBook(x.books, r);
      var owned := IsMarket(mb, r.amount.denom, r.price.denom);
      && (s.outcome.Accepted? <==> Admissible(x.bal, r, now) && owned)
      && (s.outcome.Panicked? <==> Admissible(x.bal, r, now) && !owned && mb.orders != [])
      && (!s.outcome.Accepted? ==> s.after.bal == x.bal && s.after.books == x.books)
  {
    ScreenedWhen(x.bal, r, now);
    AcceptedByLoop(x, r, now);
    if Runs(x, r, now) {
      FundsSuffice(x, r, now);
      OwnersAgree(x.books, r);
      if !IsMarket(MatchBook(x.books, r), r.amount.denom, r.price.denom) {
        ForeignOrderChangesNothing(x, r, now);
      }
    }
  }

  lemma ForeignOrderChangesNothing(x: State, r: Request, now: int)
    requires Valid(x) && Paired(x.books) && x.nextID.Some? && Runs(x, r, now)
    requires !IsMarket(MatchBook(x.books, r), r.amount.denom, r.price.denom)
    ensures Screened(r) && Matched(x, r).result.open > 0
    ensures Process(x, r, now).after.bal == x.bal && Process(x, r, now).after.books == x.books
  {
    FundsSuffice(x, r, now);
    OwnersAgree(x.books, r);
    OwnBookSurvivesFill(x, r, now);
    KeysDiffer(x, r);
    assert Matched(x, r) == Settled(x.bal, true, MatchResult([], [], r.amount.amount));
    assert AfterFill(x, r) == x;
  }

  /** A refused or panicking order leaves all balances and resting orders untouched exactly when it executed nothing.
      It can only be refused after an execution because the order counter was never set, or because the opposite book
      cannot fill it and another market's book is stored under its own key; in a paired store with a set counter
      neither happens. */
  lemma RefusalLeavesNoTrace(x: State, r: Request, now: int)
    requires Valid(x) && !Process(x, r, now).outcome.Accepted?
    ensures var y := Process(x, r, now).after;
      && (SameBalances(x.bal, y.bal) && SameOrders(x.books, y.books) <==> !Executes(x, r, now))
      && (Executes(x, r, now) ==>
            || x.nextID.None?
            || (&& !IsMarket(OwnBook(x.books, r), r.amount.denom, r.price.denom)
                && EligibleDepth(MatchBook(x.books, r).orders, r.kind, r.price.amount) < r.amount.amount))
      && (Paired(x.books) && x.nextID.Some? ==>
            !Executes(x, r, now) && y.bal == x.bal && y.books == x.books)
  {
    if Runs(x, r, now) {
      FundsSuffice(x, r, now);
      AcceptedExactlyWhen(x, r, now);
      if Executes(x, r, now) {
        ExecutionShows(x, r, now);
      } else {
        BookForWellFormed(x.books, Opposite(r.kind), r.amount.denom, r.price.denom);
        assert Matched(x, r).result.rest == MatchBook(x.books, r).orders;
      }
    }
    if Paired(x.books) && x.nextID.Some? {
      OwnerDecides(x, r, now);
    }
  }
}
