/** Stateless validation of an order message, and what it fixes about markets. */
module Messages {
  import opened Options
  import opened Seqs
  import opened Bank
  import opened Orders
  import opened Books
  import opened Exchange
  import opened Processing

  const RUNE := "RUNE"

  /** Byte-wise string comparison. */
  predicate Less(s: string, t: string) {
    t != [] && (s == [] || s[0] < t[0] || (s[0] == t[0] && Less(s[1..], t[1..])))
  }

  lemma {:induction false} LessTotal(s: string, t: string)
    ensures s == t ==> !Less(s, t)
    ensures s != t ==> (Less(s, t) <==> !Less(t, s))
  {
    if s != [] && t != [] {
      LessTotal(s[1..], t[1..]);
      if s[0] == t[0] {
        assert s == [s[0]] + s[1..] && t == [t[0]] + t[1..];
      }
    }
  }

  /** The comparison is that of a dictionary: a proper prefix comes first, and otherwise the first difference
      decides. */
  lemma {:induction false} LessIsLexicographic(s: string, t: string)
    ensures Less(s, t) <==>
            || (|s| < |t| && s == t[..|s|])
            || (exists i :: 0 <= i < |s| && i < |t| && s[..i] == t[..i] && s[i] < t[i])
  {
    if s != [] && t != [] {
      LessIsLexicographic(s[1..], t[1..]);
      if s[0] == t[0] {
        PrefixTail(s, t);
        DifferenceTail(s, t);
      } else if s[0] < t[0] {
        assert s[..0] == t[..0];
      }
    }
  }

  lemma PrefixTail(s: string, t: string)
    requires s != [] && t != [] && s[0] == t[0]
    ensures (|s| < |t| && s == t[..|s|]) <==> (|s[1..]| < |t[1..]| && s[1..] == t[1..][..|s[1..]|])
  {
    HeadTail(s);
    if |s| < |t| {
      assert t[..|s|] == [t[0]] + t[1..][..|s| - 1];
    }
  }

  lemma DifferenceTail(s: string, t: string)
    requires s != [] && t != [] && s[0] == t[0]
    ensures (exists i :: 0 <= i < |s| && i < |t| && s[..i] == t[..i] && s[i] < t[i])
            <==> (exists i :: 0 <= i < |s[1..]| && i < |t[1..]| && s[1..][..i] == t[1..][..i] && s[1..][i] < t[1..][i])
  {
    forall i | 0 < i < |s| && i < |t|
      ensures s[..i] == t[..i] <==> s[1..][..i - 1] == t[1..][..i - 1]
      ensures s[i] == s[1..][i - 1] && t[i] == t[1..][i - 1]
    {
      assert s[..i] == [s[0]] + s[1..][..i - 1] && t[..i] == [t[0]] + t[1..][..i - 1];
    }
    if i :| 0 <= i < |s| && i < |t| && s[..i] == t[..i] && s[i] < t[i] {
      assert s[1..][..i - 1] == t[1..][..i - 1] && s[1..][i - 1] < t[1..][i - 1];
    }
    if i :| 0 <= i < |s[1..]| && i < |t[1..]| && s[1..][..i] == t[1..][..i] && s[1..][i] < t[1..][i] {
      assert s[..i + 1] == t[..i + 1] && s[i + 1] < t[i + 1];
    }
  }

  /** The direction rule: RUNE is always the price side; otherwise the amount denomination sorts last. */
  predicate WrongDirection(ad: Denom, pd: Denom) {
    ad == RUNE || (pd != RUNE && Less(ad, pd))
  }

  function ValidateBasic(r: Request, now: int): Option<Error> {
    if r.kind != BuyOrder && r.kind != SellOrder then Some(InvalidKind)
    else if r.amount.denom == r.price.denom then Some(SameDenom)
    else if WrongDirection(r.amount.denom, r.price.denom) then Some(OrderBookDirection)
    else if r.expiresAt < now then Some(OrderExpired)
    else if |r.sender| == 0 then Some(UnknownAddress)
    else None
  }

  /** A message passes exactly when its kind is known, its denominations differ and stand in the accepted direction, it
      has not expired, and it names a sender: the price is in RUNE, or neither side is and the price denomination comes
      before the other. Otherwise the first failing condition names the error. */
  lemma ValidatesExactly(r: Request, now: int)
    ensures var refusal := ValidateBasic(r, now);
      var known := r.kind == BuyOrder || r.kind == SellOrder;
      var market := known && r.amount.denom != r.price.denom;
      var directed :=
        r.amount.denom != "RUNE" && (r.price.denom == "RUNE" || Less(r.price.denom, r.amount.denom));
      && (refusal.None? <==> market && directed && now <= r.expiresAt && r.sender != "")
      && (refusal == Some(InvalidKind) <==> !known)
      && (refusal == Some(SameDenom) <==> known && r.amount.denom == r.price.denom)
      && (refusal == Some(OrderBookDirection) <==> market && !directed)
      && (refusal == Some(OrderExpired) <==> market && directed && r.expiresAt < now)
      && (refusal == Some(UnknownAddress) <==> market && directed && now <= r.expiresAt && r.sender == "")
  {
    LessTotal(r.amount.denom, r.price.denom);
  }

  function Swapped(r: Request): Request {
    r.(amount := Coin(r.price.denom, r.amount.amount), price := Coin(r.amount.denom, r.price.amount))
  }

  /** Of the two directions of a market exactly one passes validation, and equal denominations never do. */
  lemma OneDirectionPerMarket(r: Request, now: int)
    requires (r.kind == BuyOrder || r.kind == SellOrder) && !(r.expiresAt < now) && |r.sender| > 0
    ensures r.amount.denom != r.price.denom ==> (ValidateBasic(r, now).None? <==> ValidateBasic(Swapped(r), now).Some?)
    ensures r.amount.denom == r.price.denom ==> ValidateBasic(r, now).Some? && ValidateBasic(Swapped(r), now).Some?
  {
    LessTotal(r.amount.denom, r.price.denom);
  }

  /** A message is validated, possibly at an earlier time, and then processed. */
  function Deliver(x: State, r: Request, checkedAt: int, now: int): Step
    requires BooksWellFormed(x.books)
  {
    var refusal := ValidateBasic(r, checkedAt);
    if refusal.Some? then Step(x, Rejected(refusal.value), NO_FLOW) else Process(x, r, now)
  }

  /** A message that does not validate changes nothing and is refused with that error; any other is processed. */
  lemma DeliversExactly(x: State, r: Request, checkedAt: int, now: int)
    requires BooksWellFormed(x.books)
    ensures var s, refusal := Deliver(x, r, checkedAt, now), ValidateBasic(r, checkedAt);
      && (refusal.Some? ==> s.outcome == Rejected(refusal.value) && s.after == x && s.flow == NO_FLOW)
      && (refusal.None? ==> s == Process(x, r, now))
  {
  }

  /** Every stored book has the accepted direction. */
  ghost predicate Oriented(books: BookStore) {
    forall k :: k in books ==> !WrongDirection(books[k].amountDenom, books[k].priceDenom)
  }

  /** No two stored books hold the two directions of one pair. */
  lemma NeverBothDirections(books: BookStore, k1: string, k2: string)
    requires Oriented(books) && BooksWellFormed(books) && k1 in books && k2 in books
    ensures !(books[k1].amountDenom == books[k2].priceDenom && books[k1].priceDenom == books[k2].amountDenom)
  {
    LessTotal(books[k1].amountDenom, books[k1].priceDenom);
    assert WellFormed(k1, books[k1]);
  }

  /** Processing only ever opens books of the request's own market. */
  lemma ProcessMarkets(x: State, r: Request, now: int, k: string)
    requires Valid(x)
    requires k in Process(x, r, now).after.books
    ensures var b := Process(x, r, now).after.books[k];
      || IsMarket(b, r.amount.denom, r.price.denom)
      || (k in x.books && IsMarket(b, x.books[k].amountDenom, x.books[k].priceDenom))
  {
    if Runs(x, r, now) {
      FundsSuffice(x, r, now);
      FillMarkets(x, r);
      StoreMarkets(AfterFill(x, r), r, Matched(x, r).result.open, k);
    }
  }

  lemma FillMarkets(x: State, r: Request)
    requires BooksWellFormed(x.books) && Screened(r)
    ensures var y := AfterFill(x, r);
      forall k :: k in y.books ==>
        || IsMarket(y.books[k], r.amount.denom, r.price.denom)
        || (k in x.books && IsMarket(y.books[k], x.books[k].amountDenom, x.books[k].priceDenom))
  {
  }

  lemma StoreMarkets(y: State, r: Request, open: nat, k: string)
    requires Screened(r)
    requires k in StoreUnfilled(y, r, open).after.books
    ensures var b := StoreUnfilled(y, r, open).after.books[k];
      IsMarket(b, r.amount.denom, r.price.denom) || (k in y.books && b == y.books[k])
  {
  }

  lemma ProcessKeepsOriented(x: State, r: Request, now: int)
    requires Valid(x) && Oriented(x.books) && !WrongDirection(r.amount.denom, r.price.denom)
    ensures Oriented(Process(x, r, now).after.books)
  {
    forall k | k in Process(x, r, now).after.books
      ensures var b := Process(x, r, now).after.books[k]; !WrongDirection(b.amountDenom, b.priceDenom)
    {
      ProcessMarkets(x, r, now, k);
    }
  }

  // ---- colon-free denominations ----

  ghost predicate BooksColonFree(books: BookStore) {
    forall k :: k in books ==> ColonFree(books[k].amountDenom) && ColonFree(books[k].priceDenom)
  }

  predicate RequestColonFree(r: Request) {
    ColonFree(r.amount.denom) && ColonFree(r.price.denom)
  }

  lemma ProcessKeepsColonFree(x: State, r: Request, now: int)
    requires Valid(x) && BooksColonFree(x.books) && RequestColonFree(r)
    ensures BooksColonFree(Process(x, r, now).after.books)
  {
    forall k | k in Process(x, r, now).after.books
      ensures var b := Process(x, r, now).after.books[k]; ColonFree(b.amountDenom) && ColonFree(b.priceDenom)
    {
      ProcessMarkets(x, r, now, k);
    }
  }

  lemma ColonFreeLookup(books: BookStore, kind: OrderKind, ad: Denom, pd: Denom)
    requires BooksWellFormed(books) && BooksColonFree(books) && !kind.UnknownKind?
    requires ColonFree(ad) && ColonFree(pd) && ad != pd
    ensures IsMarket(BookFor(books, kind, ad, pd), ad, pd)
  {
    var key := MakeKeyOrderBook(kind, ad, pd);
    if key in books {
      var b := books[key];
      assert WellFormed(key, b);
      KeyInjective(kind, ad, pd, b.kind, b.amountDenom, b.priceDenom);
    }
  }

  /** With colon-free denominations and a set counter the checks decide: an order is accepted exactly when it passes
      them, no match decision panics, no insertion is refused, and a refused order changes nothing at all. */
  lemma ChecksDecide(x: State, r: Request, now: int)
    requires Valid(x) && BooksColonFree(x.books) && RequestColonFree(r) && x.nextID.Some?
    ensures Process(x, r, now).outcome.Accepted? <==> Admissible(x.bal, r, now)
    ensures !Process(x, r, now).outcome.Panicked?
    ensures !Process(x, r, now).outcome.Accepted? ==> Process(x, r, now).after == x
  {
    ScreenedWhen(x.bal, r, now);
    if Admissible(x.bal, r, now) {
      ColonFreeLookup(x.books, Opposite(r.kind), r.amount.denom, r.price.denom);
      ColonFreeLookup(x.books, r.kind, r.amount.denom, r.price.denom);
      AcceptedExactlyWhen(x, r, now);
    }
  }

  // ---- denominations with colons ----

  const CLASH_START := State(
    map[("seller", "y:x") := 1, ("buyer", "x:RUNE") := 1, ("rival", "y") := 1], map[], Some(1))
  const CLASH_SELL := Request("seller", SellOrder, Coin("y:x", 1), Coin("RUNE", 1), 5)
  const CLASH_BUY := Request("buyer", BuyOrder, Coin("y", 1), Coin("x:RUNE", 1), 5)
  const CLASH_RIVAL := Request("rival", SellOrder, Coin("y", 1), Coin("x:RUNE", 1), 5)

  lemma ClashStarts()
    ensures Valid(CLASH_START) && Runs(CLASH_START, CLASH_SELL, 0)
    ensures Process(CLASH_START, CLASH_SELL, 0).outcome.Accepted?
  {
    assert forall id :: Resting(id, CLASH_START.books) == 0;
    AcceptedByLoop(CLASH_START, CLASH_SELL, 0);
  }

  lemma ClashSellRests()
    ensures Valid(CLASH_START) && Valid(Process(CLASH_START, CLASH_SELL, 0).after)
    ensures var x := Process(CLASH_START, CLASH_SELL, 0).after;
      var key := MakeKeyOrderBook(SellOrder, "y:x", "RUNE");
      key in x.books && x.books[key].orders != [] && IsMarket(x.books[key], "y:x", "RUNE")
  {
    ClashStarts();
    ProcessKeepsValid(CLASH_START, CLASH_SELL, 0);
    FundsSuffice(CLASH_START, CLASH_SELL, 0);
  }

  /** The sell is matched with nothing, so it costs nobody else anything. */
  lemma ClashBystander(a: Addr, d: Denom)
    requires a != "seller"
    ensures BalanceOf(Process(CLASH_START, CLASH_SELL, 0).after.bal, a, d) == BalanceOf(CLASH_START.bal, a, d)
  {
    ClashStarts();
    ProcessBalance(CLASH_START, CLASH_SELL, 0, a, d);
    AcceptedPerformsMatch(CLASH_START, CLASH_SELL, 0);
  }

  /** With colons a match decision can panic: once a sell of "y:x" for RUNE rests, a buy of "y" for "x:RUNE" looks for
      sells under the same key. */
  lemma CollidingMarketsPanic()
    ensures ValidateBasic(CLASH_SELL, 0).None? && ValidateBasic(CLASH_BUY, 0).None?
    ensures Valid(CLASH_START) && Valid(Process(CLASH_START, CLASH_SELL, 0).after)
    ensures Process(Process(CLASH_START, CLASH_SELL, 0).after, CLASH_BUY, 0).outcome.Panicked?
  {
    ClashSellRests();
    ClashBystander("buyer", "x:RUNE");
    KeyCollides();
    ClashValidates();
  }

  lemma ClashSellMeetsNothing()
    requires Valid(CLASH_START) && Process(CLASH_START, CLASH_SELL, 0).outcome.Accepted?
    ensures MatchBook(Process(CLASH_START, CLASH_SELL, 0).after.books, CLASH_SELL).orders == []
  {
    AcceptedPerformsMatch(CLASH_START, CLASH_SELL, 0);
  }

  lemma ClashShares(books: BookStore)
    ensures MatchBook(books, CLASH_RIVAL).orders == MatchBook(books, CLASH_SELL).orders
  {
    assert MakeKeyOrderBook(BuyOrder, "y", "x:RUNE") == "orderBook:1:y:x:RUNE";
    assert MakeKeyOrderBook(BuyOrder, "y:x", "RUNE") == "orderBook:1:y:x:RUNE";
  }

  /** The opposite book of the first market was written back empty, and the rival still owns its coins. */
  lemma ClashRivalRuns()
    requires Valid(CLASH_START) && Process(CLASH_START, CLASH_SELL, 0).outcome.Accepted?
    ensures var x := Process(CLASH_START, CLASH_SELL, 0).after;
      Runs(x, CLASH_RIVAL, 0) && MatchBook(x.books, CLASH_RIVAL).orders == []
  {
    ClashSellMeetsNothing();
    ClashShares(Process(CLASH_START, CLASH_SELL, 0).after.books);
    ClashBystander("rival", "y");
  }

  /** Nor does a sell of the second market find a place: a validated order of a sender with enough coins is neither
      accepted nor panics, because the book under its own key refuses it. */
  lemma CollidingMarketsRefuse()
    ensures ValidateBasic(CLASH_RIVAL, 0).None?
    ensures Valid(CLASH_START) && Valid(Process(CLASH_START, CLASH_SELL, 0).after)
    ensures var x := Process(CLASH_START, CLASH_SELL, 0).after;
      Admissible(x.bal, CLASH_RIVAL, 0) && Process(x, CLASH_RIVAL, 0).outcome == Rejected(WrongBook)
  {
    ClashStarts();
    ClashSellRests();
    ClashRivalRuns();
    KeyCollides();
    ClashValidates();
    var x := Process(CLASH_START, CLASH_SELL, 0).after;
    AcceptedExactlyWhen(x, CLASH_RIVAL, 0);
    FundsSuffice(x, CLASH_RIVAL, 0);
  }

  lemma ClashValidates()
    ensures ValidateBasic(CLASH_SELL, 0).None? && ValidateBasic(CLASH_BUY, 0).None?
    ensures ValidateBasic(CLASH_RIVAL, 0).None?
  {
    assert "y:x"[0] == 'y' && "RUNE"[0] == 'R' && "y"[0] == 'y' && "x:RUNE"[0] == 'x';
  }
}
