/** What processing one order guarantees: the funds check suffices, nothing is created or lost, books stay
    sorted, uniquely numbered and uncrossed, and limit prices are honoured. */
module Processing {
  import opened Options
  import opened Seqs
  import opened MapSums
  import opened Bank
  import opened Orders
  import opened Books
  import opened Matching
  import opened Settlement
  import opened Exchange

  /** The request got past the checks and the first match decision. */
  ghost predicate Runs(x: State, r: Request, now: int) {
    Screen(x.bal, r, now).None? && !MatchPanics(x.books, r)
  }

  /** The loop succeeds, performs exactly the match against the opposite book, and leaves enough to lock the rest. */
  lemma FundsSuffice(x: State, r: Request, now: int)
    requires BooksWellFormed(x.books) && Runs(x, r, now)
    ensures Screened(r)
    ensures AllOnMarket(MatchBook(x.books, r).orders, Opposite(r.kind), r.amount.denom, r.price.denom)
    ensures InPriority(Opposite(r.kind), MatchBook(x.books, r).orders)
    ensures Matched(x, r).ok
    ensures Matched(x, r).result == Match(MatchBook(x.books, r).orders, r.kind, r.amount.amount, r.price.amount)
    ensures forall id :: Covers(Matched(x, r).bal, r.sender, Escrow(ToOrder(r, id, Matched(x, r).result.open)))
  {
    BookForWellFormed(x.books, Opposite(r.kind), r.amount.denom, r.price.denom);
    SettleFunded(x.bal, r.sender, r.kind, MatchBook(x.books, r).orders, r.amount.amount, r.price.amount,
                 r.amount.denom, r.price.denom);
  }

  // ---- writing one book back ----

  ghost predicate ApartFrom(kind: OrderKind, orders: seq<LimitOrder>, others: seq<LimitOrder>) {
    if kind == BuyOrder then Apart(orders, others) else Apart(others, orders)
  }

  lemma PutBook(books: BookStore, kind: OrderKind, ad: Denom, pd: Denom, orders: seq<LimitOrder>)
    requires BooksWellFormed(books) && NeverCrossed(books) && !kind.UnknownKind? && ad != pd
    requires var b := BookFor(books, kind, ad, pd);
      && AllOnMarket(orders, kind, b.amountDenom, b.priceDenom) && InPriority(kind, orders)
      && forall k :: k in books && books[k].kind == Opposite(kind) && IsMarket(books[k], b.amountDenom, b.priceDenom)
           ==> ApartFrom(kind, orders, books[k].orders)
    ensures var b := BookFor(books, kind, ad, pd);
      var after := books[b.key := b.(orders := orders)];
      BooksWellFormed(after) && NeverCrossed(after)
  {
    BookForWellFormed(books, kind, ad, pd);
  }

  lemma RestStaysApart(orders: seq<LimitOrder>, rest: seq<LimitOrder>, kind: OrderKind, others: seq<LimitOrder>)
    requires forall o :: o in rest ==> exists p :: p in orders && p.orderID == o.orderID && p.price == o.price
    requires ApartFrom(kind, orders, others)
    ensures ApartFrom(kind, rest, others)
  {
    forall o, q | o in rest && q in others
      ensures if kind == BuyOrder then o.price.amount < q.price.amount else q.price.amount < o.price.amount
    {
      var p :| p in orders && p.orderID == o.orderID && p.price == o.price;
    }
  }

  lemma FillKeepsBooks(x: State, r: Request, now: int)
    requires Valid(x) && Runs(x, r, now)
    ensures Screened(r)
    ensures BooksWellFormed(AfterFill(x, r).books) && NeverCrossed(AfterFill(x, r).books)
  {
    FundsSuffice(x, r, now);
    var side, ad, pd := Opposite(r.kind), r.amount.denom, r.price.denom;
    BookForWellFormed(x.books, side, ad, pd);
    var mb := MatchBook(x.books, r);
    var rest := Matched(x, r).result.rest;
    RestMembers(mb.orders, r.kind, r.amount.amount, r.price.amount, side, mb.amountDenom, mb.priceDenom);
    RestInPriority(mb.orders, r.kind, r.amount.amount, r.price.amount, side);
    forall k | k in x.books && x.books[k].kind == Opposite(side) && IsMarket(x.books[k], mb.amountDenom, mb.priceDenom)
      ensures ApartFrom(side, rest, x.books[k].orders)
    {
      assert ApartFrom(side, mb.orders, x.books[k].orders);
      RestStaysApart(mb.orders, rest, side, x.books[k].orders);
    }
    PutBook(x.books, side, ad, pd, rest);
  }

  lemma FillKeepsNumbers(x: State, r: Request, now: int, id: int)
    requires BooksWellFormed(x.books) && Runs(x, r, now)
    ensures Screened(r) && Resting(id, AfterFill(x, r).books) <= Resting(id, x.books)
  {
    FundsSuffice(x, r, now);
    var mb := MatchBook(x.books, r);
    SumBooksPut(RestingOf(id), x.books, Opposite(r.kind), r.amount.denom, r.price.denom, Matched(x, r).result.rest);
    MatchRemoves(mb.orders, r.kind, r.amount.amount, r.price.amount, id);
  }

  lemma RestingNonNegative(books: BookStore, id: int)
    ensures Resting(id, books) >= 0
  {
    forall j | j in books
      ensures BookWeight(RestingOf(id))(j, books[j]) >= 0
    {
      SumOrdersNonNegative(RestingOf(id), books[j].orders);
    }
    MapSumBound(books, BookWeight(RestingOf(id)));
  }

  lemma FillKeepsValid(x: State, r: Request, now: int)
    requires Valid(x) && Runs(x, r, now)
    ensures Screened(r) && Valid(AfterFill(x, r))
  {
    FillKeepsBooks(x, r, now);
    forall id
      ensures 0 <= Resting(id, AfterFill(x, r).books) <= Resting(id, x.books)
    {
      FillKeepsNumbers(x, r, now, id);
      RestingNonNegative(AfterFill(x, r).books, id);
    }
  }

  /** What the opposite book still offers is out of the request's reach, so resting the open part cannot cross it. */
  lemma OpenPartIsApart(x: State, r: Request, now: int, o: LimitOrder)
    requires BooksWellFormed(x.books) && Runs(x, r, now)
    requires o.price == r.price
    requires Screened(r) && Matched(x, r).result.open > 0
    ensures ApartFrom(r.kind, [o], Matched(x, r).result.rest)
  {
    FundsSuffice(x, r, now);
    var mb := MatchBook(x.books, r);
    var rest := Matched(x, r).result.rest;
    MatchExhausts(mb.orders, r.kind, r.amount.amount, r.price.amount);
    RestInPriority(mb.orders, r.kind, r.amount.amount, r.price.amount, Opposite(r.kind));
    if rest != [] {
      NoDepthPast(rest, r.kind, r.price.amount);
    }
  }

  lemma StoreKeepsBooks(x: State, r: Request, o: LimitOrder)
    requires Valid(x) && Screened(r)
    requires x.nextID.Some? && o.orderID == x.nextID.value
    requires OnMarket(o, r.kind, r.amount.denom, r.price.denom)
    requires IsMarket(OwnBook(x.books, r), r.amount.denom, r.price.denom)
    requires ApartFrom(r.kind, [o], MatchBook(x.books, r).orders)
    ensures var ob := OwnBook(x.books, r);
      var after := x.books[ob.key := ob.(orders := Insert(ob.kind, ob.orders, o))];
      BooksWellFormed(after) && NeverCrossed(after)
  {
    var ob := OwnBook(x.books, r);
    BookForWellFormed(x.books, r.kind, r.amount.denom, r.price.denom);
    var orders := Insert(ob.kind, ob.orders, o);
    InsertMembers(ob.kind, ob.orders, o);
    forall p | p in ob.orders
      ensures p.orderID < o.orderID
    {
      RestingBelowNext(x, ob.key, p);
    }
    InsertKeepsPriority(ob.kind, ob.orders, o);
    forall k | k in x.books && x.books[k].kind == Opposite(r.kind)
        && IsMarket(x.books[k], ob.amountDenom, ob.priceDenom)
      ensures ApartFrom(r.kind, orders, x.books[k].orders)
    {
      assert x.books[k] == MatchBook(x.books, r);
      assert ApartFrom(r.kind, ob.orders, x.books[k].orders);
      assert o in [o];
    }
    PutBook(x.books, r.kind, r.amount.denom, r.price.denom, orders);
  }

  /** A rested order adds one to its own number and to no other. */
  lemma StoreNumbers(x: State, r: Request, open: nat, id: int)
    requires BooksWellFormed(x.books) && Screened(r)
    ensures var st := StoreUnfilled(x, r, open);
      Resting(id, st.after.books) == Resting(id, x.books) + SumOrders(RestingOf(id), st.rested)
  {
    StoreFlow(x, r, open, RestingOf(id));
  }

  lemma StoreFlow(x: State, r: Request, open: nat, w: Weight)
    requires BooksWellFormed(x.books) && Screened(r)
    ensures var st := StoreUnfilled(x, r, open);
      SumBooks(w, st.after.books) == SumBooks(w, x.books) + SumOrders(w, st.rested)
  {
    var st := StoreUnfilled(x, r, open);
    if st.rested != [] {
      var ob := OwnBook(x.books, r);
      SumBooksPut(w, x.books, r.kind, r.amount.denom, r.price.denom, Insert(ob.kind, ob.orders, st.rested[0]));
      SumInsert(w, ob.kind, ob.orders, st.rested[0]);
      assert st.rested == [st.rested[0]];
    }
  }

  lemma StoreKeepsValid(x: State, r: Request, now: int)
    requires Valid(x) && Runs(x, r, now)
    ensures Screened(r) && Valid(StoreUnfilled(AfterFill(x, r), r, Matched(x, r).result.open).after)
  {
    FillKeepsValid(x, r, now);
    var y := AfterFill(x, r);
    var open := Matched(x, r).result.open;
    var st := StoreUnfilled(y, r, open);
    if st.rested != [] {
      RestsApart(x, r, now, st.rested[0]);
    }
    UncrossedStoreIsValid(y, r, open);
  }

  lemma UncrossedStoreIsValid(y: State, r: Request, open: nat)
    requires Valid(y) && Screened(r)
    requires var st := StoreUnfilled(y, r, open);
      st.rested != [] ==> ApartFrom(r.kind, [st.rested[0]], MatchBook(y.books, r).orders)
    ensures Valid(StoreUnfilled(y, r, open).after)
  {
    StoreKeepsNumbers(y, r, open);
    if StoreUnfilled(y, r, open).rested != [] {
      StoreKeepsBooks(y, r, StoreUnfilled(y, r, open).rested[0]);
    }
  }

  lemma RestsApart(x: State, r: Request, now: int, o: LimitOrder)
    requires BooksWellFormed(x.books) && Runs(x, r, now)
    requires o.price == r.price
    requires Screened(r) && Matched(x, r).result.open > 0
    ensures ApartFrom(r.kind, [o], MatchBook(AfterFill(x, r).books, r).orders)
  {
    BookForWellFormed(x.books, Opposite(r.kind), r.amount.denom, r.price.denom);
    OpenPartIsApart(x, r, now, o);
  }

  lemma StoreKeepsNumbers(y: State, r: Request, open: nat)
    requires Valid(y) && Screened(r)
    ensures var st := StoreUnfilled(y, r, open);
      NumbersUsedOnce(st.after.books, st.after.nextID)
  {
    var st := StoreUnfilled(y, r, open);
    forall id
      ensures 0 <= Resting(id, st.after.books) <= 1
      ensures st.after.nextID.Some? && id >= st.after.nextID.value ==> Resting(id, st.after.books) == 0
    {
      StoreNumbers(y, r, open, id);
      assert 0 <= Resting(id, y.books) <= 1;
    }
  }

  /** Every order, accepted, refused or panicking, leaves the exchange valid: books sorted by price then number,
      numbers used once, no crossed market, every order on its own book with positive amount and price. */
  lemma ProcessKeepsValid(x: State, r: Request, now: int)
    requires Valid(x)
    ensures Valid(Process(x, r, now).after)
  {
    if Runs(x, r, now) {
      FundsSuffice(x, r, now);
      StoreKeepsValid(x, r, now);
    }
  }

  // ---- conservation ----

  /** Any proportional weight of the books changes by exactly what the step reports. */
  lemma ProcessFlow(x: State, r: Request, now: int, w: Weight)
    requires Valid(x) && Proportional(w)
    ensures var s := Process(x, r, now);
      SumBooks(w, s.after.books) == SumBooks(w, x.books) + Net(w, s.flow)
  {
    if Runs(x, r, now) {
      FundsSuffice(x, r, now);
      FillKeepsValid(x, r, now);
      var m := Matched(x, r);
      SumBooksPut(w, x.books, Opposite(r.kind), r.amount.denom, r.price.denom, m.result.rest);
      MatchFlow(MatchBook(x.books, r).orders, r.kind, r.amount.amount, r.price.amount, w);
      StoreFlow(AfterFill(x, r), r, m.result.open, w);
    }
  }

  /** The accounts change by exactly the opposite of the escrow. */
  lemma ProcessTotal(x: State, r: Request, now: int, d: Denom)
    requires Valid(x)
    ensures var s := Process(x, r, now);
      Total(s.after.bal, d) == Total(x.bal, d) - Net(EscrowIn(d), s.flow)
  {
    if Runs(x, r, now) {
      FundsSuffice(x, r, now);
      var m := Matched(x, r);
      SettleTotal(x.bal, r.sender, r.kind, MatchBook(x.books, r).orders, r.amount.amount, r.price.amount, d);
      StoreTotal(AfterFill(x, r), r, m.result.open, d);
    }
  }

  lemma StoreTotal(y: State, r: Request, open: nat, d: Denom)
    requires Screened(r)
    ensures var st := StoreUnfilled(y, r, open);
      Total(st.after.bal, d) == Total(y.bal, d) - SumOrders(EscrowIn(d), st.rested)
  {
    var st := StoreUnfilled(y, r, open);
    if st.rested != [] {
      TotalDebited(y.bal, r.sender, Escrow(st.rested[0]), d);
      assert st.rested == [st.rested[0]];
    }
  }

  /** Accounts plus implied escrow: nothing is created or lost by an order, self-trades included. */
  lemma ProcessConserves(x: State, r: Request, now: int, d: Denom)
    requires Valid(x)
    ensures var y := Process(x, r, now).after;
      Total(y.bal, d) + SumBooks(EscrowIn(d), y.books) == Total(x.bal, d) + SumBooks(EscrowIn(d), x.books)
  {
    ProcessFlow(x, r, now, EscrowIn(d));
    ProcessTotal(x, r, now, d);
  }

  // ---- when an order is accepted, and what a refusal leaves behind ----

  /** What a request must meet before it is matched. */
  predicate Admissible(bal: Balances, r: Request, now: int) {
    && now <= r.expiresAt && (r.kind == BuyOrder || r.kind == SellOrder) && r.amount.denom != r.price.denom
    && r.amount.amount > 0 && r.price.amount > 0
    && (if r.kind == BuyOrder then r.amount.amount * r.price.amount <= BalanceOf(bal, r.sender, r.price.denom)
        else r.amount.amount <= BalanceOf(bal, r.sender, r.amount.denom))
  }

  lemma ScreenedWhen(bal: Balances, r: Request, now: int)
    ensures Screen(bal, r, now).None? <==> Admissible(bal, r, now)
  {
  }

  /** From a valid state an order is accepted exactly when it has not expired, has a known kind, distinct denominations
      and positive numbers, its sender owns what a buy or a sell can cost, its match decisions do not panic, the order
      counter was set, and either the opposite book offers enough at acceptable prices to fill it or the book in which
      its open part would rest is its own market's. It panics exactly when it meets the first conditions and the
      opposite book holds orders of another market. */
  lemma AcceptedExactlyWhen(x: State, r: Request, now: int)
    requires Valid(x)
    ensures Process(x, r, now).outcome.Accepted? <==>
            && now <= r.expiresAt && (r.kind == BuyOrder || r.kind == SellOrder) && r.amount.denom != r.price.denom
            && r.amount.amount > 0 && r.price.amount > 0
            && (r.kind == BuyOrder ==>
                  BalanceOf(x.bal, r.sender, r.price.denom) >= r.amount.amount * r.price.amount)
            && (r.kind == SellOrder ==> BalanceOf(x.bal, r.sender, r.amount.denom) >= r.amount.amount)
            && (MatchBook(x.books, r).orders == [] || IsMarket(MatchBook(x.books, r), r.amount.denom, r.price.denom))
            && x.nextID.Some?
            && (|| r.amount.amount <= EligibleDepth(MatchBook(x.books, r).orders, r.kind, r.price.amount)
                || IsMarket(OwnBook(x.books, r), r.amount.denom, r.price.denom))
    ensures Process(x, r, now).outcome.Panicked? <==>
            && now <= r.expiresAt && (r.kind == BuyOrder || r.kind == SellOrder) && r.amount.denom != r.price.denom
            && r.amount.amount > 0 && r.price.amount > 0
            && (r.kind == BuyOrder ==>
                  BalanceOf(x.bal, r.sender, r.price.denom) >= r.amount.amount * r.price.amount)
            && (r.kind == SellOrder ==> BalanceOf(x.bal, r.sender, r.amount.denom) >= r.amount.amount)
            && MatchBook(x.books, r).orders != []
            && !IsMarket(MatchBook(x.books, r), r.amount.denom, r.price.denom)
  {
    ScreenedWhen(x.bal, r, now);
    AcceptedByLoop(x, r, now);
    if Runs(x, r, now) {
      OpenByDepth(x, r, now);
    }
  }

  /** Which error a check returns, in the order of the checks, and that nothing has changed then. */
  lemma ChecksRefuse(x: State, r: Request, now: int)
    requires Valid(x)
    ensures var s := Process(x, r, now);
      var known := r.kind == BuyOrder || r.kind == SellOrder;
      var lacking := if r.kind == BuyOrder
                     then BalanceOf(x.bal, r.sender, r.price.denom) < r.amount.amount * r.price.amount
                     else BalanceOf(x.bal, r.sender, r.amount.denom) < r.amount.amount;
      var valid := now <= r.expiresAt && known && r.amount.denom != r.price.denom;
      && (s.outcome == Rejected(OrderExpired) <==> r.expiresAt < now)
      && (s.outcome == Rejected(InvalidKind) <==> now <= r.expiresAt && !known)
      && (s.outcome == Rejected(SameDenom) <==> now <= r.expiresAt && known && r.amount.denom == r.price.denom)
      && (s.outcome == Rejected(AmountNotPositive) <==> valid && r.amount.amount <= 0)
      && (s.outcome == Rejected(PriceNotPositive) <==> valid && r.amount.amount > 0 && r.price.amount <= 0)
      && (s.outcome == Rejected(InsufficientCoins) <==>
            valid && r.amount.amount > 0 && r.price.amount > 0 && lacking)
      && (!Admissible(x.bal, r, now) ==> s.outcome.Rejected? && s.after == x && s.flow == NO_FLOW)
  {
    if Runs(x, r, now) {
      FundsSuffice(x, r, now);
    }
  }

  /** What happens to a request past the checks that is not accepted: a panic changes nothing; an unset counter and a
      foreign own book are reported as such, and only the latter uses up a number. */
  lemma AdmissibleRefuses(x: State, r: Request, now: int)
    requires Valid(x) && Admissible(x.bal, r, now) && !Process(x, r, now).outcome.Accepted?
    ensures var s := Process(x, r, now);
      var panics :=
        MatchBook(x.books, r).orders != [] && !IsMarket(MatchBook(x.books, r), r.amount.denom, r.price.denom);
      && s.outcome
         == (if panics then Panicked else if x.nextID.None? then Rejected(InvalidGenesis) else Rejected(WrongBook))
      && s.after.nextID == (if panics || x.nextID.None? then x.nextID else Some(x.nextID.value + 1))
      && (panics ==> s.after == x && s.flow == NO_FLOW)
      && s.flow.rested == []
  {
    ScreenedWhen(x.bal, r, now);
    AcceptedByLoop(x, r, now);
    if Runs(x, r, now) {
      FundsSuffice(x, r, now);
      OwnBookSurvivesFill(x, r, now);
    }
  }

  /** Nothing stays open exactly when the opposite book offers enough at acceptable prices. */
  lemma OpenByDepth(x: State, r: Request, now: int)
    requires BooksWellFormed(x.books) && Runs(x, r, now)
    ensures Screened(r)
    ensures Matched(x, r).result.open == 0
            <==> r.amount.amount <= EligibleDepth(MatchBook(x.books, r).orders, r.kind, r.price.amount)
  {
    FundsSuffice(x, r, now);
    var orders := MatchBook(x.books, r).orders;
    MatchShape(orders, r.kind, r.amount.amount, r.price.amount);
    MatchFillsDepth(orders, r.kind, r.amount.amount, r.price.amount);
  }

  /** The same in terms of what the matching loop leaves open. */
  lemma AcceptedByLoop(x: State, r: Request, now: int)
    requires Valid(x)
    ensures Process(x, r, now).outcome.Accepted? <==>
            && Screen(x.bal, r, now).None?
            && !MatchPanics(x.books, r)
            && x.nextID.Some?
            && (Matched(x, r).result.open == 0 || IsMarket(OwnBook(x.books, r), r.amount.denom, r.price.denom))
    ensures Process(x, r, now).outcome.Panicked? <==> Screen(x.bal, r, now).None? && MatchPanics(x.books, r)
  {
    if Runs(x, r, now) {
      FundsSuffice(x, r, now);
      OwnBookSurvivesFill(x, r, now);
    }
  }

  lemma OwnBookSurvivesFill(x: State, r: Request, now: int)
    requires BooksWellFormed(x.books) && Runs(x, r, now)
    ensures Screened(r) && OwnBook(AfterFill(x, r).books, r) == OwnBook(x.books, r)
        && OwnBook(x.books, r).kind == r.kind
  {
    FundsSuffice(x, r, now);
    KeysDiffer(x, r);
    BookForWellFormed(x.books, r.kind, r.amount.denom, r.price.denom);
  }

  /** The same in terms of the pure match. */
  lemma AcceptedByMatch(x: State, r: Request, now: int)
    requires Valid(x) && Runs(x, r, now)
    ensures Screened(r) && forall o :: o in MatchBook(x.books, r).orders ==> Positive(o)
    ensures Process(x, r, now).outcome.Accepted? <==>
            && x.nextID.Some?
            && (Match(MatchBook(x.books, r).orders, r.kind, r.amount.amount, r.price.amount).open == 0
                || IsMarket(OwnBook(x.books, r), r.amount.denom, r.price.denom))
  {
    AcceptedByLoop(x, r, now);
    FundsSuffice(x, r, now);
  }

  /** An accepted order performs exactly the match: its fills, its open amount and the opposite book afterwards are
      those of the pure match; the counter advances by one, and an own book stays an own book. */
  lemma AcceptedPerformsMatch(x: State, r: Request, now: int)
    requires Valid(x) && Process(x, r, now).outcome.Accepted?
    ensures Screened(r) && forall o :: o in MatchBook(x.books, r).orders ==> Positive(o)
    ensures var s := Process(x, r, now);
      var m := Match(MatchBook(x.books, r).orders, r.kind, r.amount.amount, r.price.amount);
      && s.flow.fills == m.fills && s.outcome.openAmount.amount == m.open && s.outcome.filled == Reports(m.fills)
      && MatchBook(s.after.books, r) == MatchBook(x.books, r).(orders := m.rest)
      && x.nextID.Some? && s.outcome.orderID == x.nextID.value && s.after.nextID == Some(x.nextID.value + 1)
      && (IsMarket(OwnBook(x.books, r), r.amount.denom, r.price.denom) ==>
            IsMarket(OwnBook(s.after.books, r), r.amount.denom, r.price.denom))
  {
    AcceptedByLoop(x, r, now);
    FundsSuffice(x, r, now);
    OwnBookSurvivesFill(x, r, now);
    KeysDiffer(x, r);
  }

  function ReportedVolume(filled: seq<FilledLimitOrder>): int {
    if filled == [] then 0 else filled[0].filledAmount.amount + ReportedVolume(filled[1..])
  }

  lemma {:induction false} VolumeReported(fills: seq<Fill>)
    ensures ReportedVolume(Reports(fills)) == Volume(fills)
  {
    if fills != [] {
      VolumeReported(fills[1..]);
      ReportsAt(fills);
      ConsTail(Report(fills[0]), Reports(fills[1..]));
    }
  }

  /** Position by position the reports are about the first orders of a book, at their prices; each is a positive amount,
      all of what the order offered unless it is the last. */
  ghost predicate LineUp(filled: seq<FilledLimitOrder>, book: seq<LimitOrder>, denom: Denom) {
    && |filled| <= |book|
    && forall i :: 0 <= i < |filled| ==>
         && filled[i].orderID == book[i].orderID && filled[i].filledPrice == book[i].price
         && filled[i].filledAmount.denom == book[i].amount.denom == denom
         && 0 < filled[i].filledAmount.amount <= book[i].amount.amount
         && (i < |filled| - 1 ==> filled[i].filledAmount.amount == book[i].amount.amount)
  }

  /** What is reported is exactly what the orders lose: the book turns from `before` into `after`. */
  ghost predicate Lost(filled: seq<FilledLimitOrder>, before: seq<LimitOrder>, after: seq<LimitOrder>) {
    var n := |filled|;
    && n <= |before|
    && (n == 0 ==> after == before)
    && (n > 0 ==>
          var last := before[n - 1];
          var left := last.amount.amount - filled[n - 1].filledAmount.amount;
          after == (if left == 0 then [] else [last.(amount := Coin(last.amount.denom, left))]) + before[n..])
  }

  lemma FillsLineUp(fills: seq<Fill>, book: seq<LimitOrder>, kind: OrderKind, limit: int, ad: Denom, pd: Denom)
    requires AllOnMarket(book, Opposite(kind), ad, pd) && FillsInOrder(fills, book, kind, limit)
    ensures LineUp(Reports(fills), book, ad)
  {
    ReportsAt(fills);
    forall i | 0 <= i < |fills|
      ensures OnMarket(book[i], Opposite(kind), ad, pd)
    {
      assert book[i] in book;
    }
  }

  lemma FillsLost(filled: seq<FilledLimitOrder>, fills: seq<Fill>, book: seq<LimitOrder>)
    requires |filled| == |fills| <= |book|
    requires fills != [] ==>
      && filled[|fills| - 1].filledAmount.amount == fills[|fills| - 1].amount
      && fills[|fills| - 1].maker == book[|fills| - 1]
    ensures Lost(filled, book, Remainder(fills) + book[|fills|..])
  {
    if fills == [] {
      NothingDropped(book);
    }
  }

  lemma NothingDropped(book: seq<LimitOrder>)
    ensures [] + book[0..] == book
  {
  }

  lemma MatchReports(before: seq<LimitOrder>, kind: OrderKind, want: nat, limit: int, ad: Denom, pd: Denom)
    requires AllOnMarket(before, Opposite(kind), ad, pd)
    ensures var m := Match(before, kind, want, limit);
      && LineUp(Reports(m.fills), before, ad) && Lost(Reports(m.fills), before, m.rest)
      && ReportedVolume(Reports(m.fills)) + m.open == want
  {
    var fills := Match(before, kind, want, limit).fills;
    MatchShape(before, kind, want, limit);
    MatchRest(before, kind, want, limit);
    FillsLineUp(fills, before, kind, limit, ad, pd);
    ReportsAt(fills);
    FillsLost(Reports(fills), fills, before);
    VolumeReported(fills);
  }

  /** What an accepted order reports is what it does to the opposite book, and reported and open amounts add up to the
      request. */
  lemma AcceptedReports(x: State, r: Request, now: int)
    requires Valid(x) && Process(x, r, now).outcome.Accepted?
    ensures var s := Process(x, r, now);
      && LineUp(s.outcome.filled, MatchBook(x.books, r).orders, r.amount.denom)
      && Lost(s.outcome.filled, MatchBook(x.books, r).orders, MatchBook(s.after.books, r).orders)
      && ReportedVolume(s.outcome.filled) + s.outcome.openAmount.amount == r.amount.amount
      && s.outcome.openAmount.amount >= 0 && s.outcome.openAmount.denom == r.amount.denom
  {
    AcceptedPerformsMatch(x, r, now);
    AcceptedSides(x, r, now);
    MatchReports(MatchBook(x.books, r).orders, r.kind, r.amount.amount, r.price.amount, r.amount.denom, r.price.denom);
  }

  lemma AcceptedSides(x: State, r: Request, now: int)
    requires Valid(x) && Process(x, r, now).outcome.Accepted?
    ensures AllOnMarket(MatchBook(x.books, r).orders, Opposite(r.kind), r.amount.denom, r.price.denom)
    ensures Process(x, r, now).outcome.openAmount.denom == r.amount.denom
  {
    AcceptedByLoop(x, r, now);
    FundsSuffice(x, r, now);
  }

  lemma KeysDiffer(x: State, r: Request)
    requires BooksWellFormed(x.books) && Screened(r)
    ensures MatchBook(x.books, r).key == MakeKeyOrderBook(Opposite(r.kind), r.amount.denom, r.price.denom)
    ensures OwnBook(x.books, r).key == MakeKeyOrderBook(r.kind, r.amount.denom, r.price.denom)
    ensures MatchBook(x.books, r).key != OwnBook(x.books, r).key
  {
    BookForWellFormed(x.books, Opposite(r.kind), r.amount.denom, r.price.denom);
    BookForWellFormed(x.books, r.kind, r.amount.denom, r.price.denom);
    if MatchBook(x.books, r).key == OwnBook(x.books, r).key {
      KeyFixesKind(Opposite(r.kind), r.amount.denom, r.price.denom, r.kind, r.amount.denom, r.price.denom);
    }
  }

  /** The own book after an accepted order: the open part inserted under the number just handed out, if there is one. */
  lemma OwnBookAfter(x: State, r: Request, now: int)
    requires Valid(x) && Process(x, r, now).outcome.Accepted?
    ensures Screened(r) && x.nextID.Some?
    ensures var s := Process(x, r, now);
      var before, open := OwnBook(x.books, r).orders, s.outcome.openAmount.amount;
      && s.outcome.orderID == x.nextID.value && s.after.nextID == Some(x.nextID.value + 1)
      && OwnBook(s.after.books, r).orders
         == if open == 0 then before else Insert(r.kind, before, ToOrder(r, x.nextID.value, open))
  {
    AcceptedByLoop(x, r, now);
    FundsSuffice(x, r, now);
    OwnBookSurvivesFill(x, r, now);
    KeysDiffer(x, r);
    BookForWellFormed(x.books, r.kind, r.amount.denom, r.price.denom);
  }

  /** Where an accepted order leaves the books: every book but the two of its market is untouched; its own book is
      untouched when nothing stays open, and otherwise gains exactly the open part, with the request's sender, price
      and expiry and the number just handed out, behind every price at least as good and before every worse one. */
  lemma AcceptedRests(x: State, r: Request, now: int) returns (p: nat)
    requires Valid(x) && Process(x, r, now).outcome.Accepted?
    ensures Screened(r)
    ensures var s := Process(x, r, now);
      var open := s.outcome.openAmount.amount;
      var before, after := OwnBook(x.books, r).orders, OwnBook(s.after.books, r).orders;
      && (forall k :: k != MatchBook(x.books, r).key && k != OwnBook(x.books, r).key ==>
            (k in s.after.books <==> k in x.books) && (k in x.books ==> s.after.books[k] == x.books[k]))
      && (open == 0 ==> after == before)
      && (open > 0 ==>
            && p <= |before|
            && after == before[..p]
                        + [LimitOrder(
                             s.outcome.orderID, r.sender, r.kind, Coin(r.amount.denom, open), r.price, r.expiresAt)]
                        + before[p..]
            && (forall i :: 0 <= i < |before| ==>
                  (i >= p <==> ShouldInsertBefore(r.kind, r.price.amount, before[i].price.amount))))
  {
    AcceptedByLoop(x, r, now);
    FundsSuffice(x, r, now);
    OwnBookSurvivesFill(x, r, now);
    KeysDiffer(x, r);
    BookForWellFormed(x.books, r.kind, r.amount.denom, r.price.denom);
    var s := Process(x, r, now);
    p := 0;
    if s.outcome.openAmount.amount > 0 {
      p := InsertIsStable(r.kind, OwnBook(x.books, r).orders, s.flow.rested[0]);
    }
  }

  // ---- limit prices, end to end ----

  /** The exact effect of a processed order on every account and denomination: each fill pays the maker at the
      maker's own stored price and releases the maker's escrow to the taker, and the open part is locked. */
  lemma ProcessBalance(x: State, r: Request, now: int, a: Addr, d: Denom)
    requires Valid(x)
    ensures var s := Process(x, r, now);
      BalanceOf(s.after.bal, a, d)
      == BalanceOf(x.bal, a, d) + Gains(a, d, r.sender, s.flow.fills) - SumOrders(Owed(a, d), s.flow.rested)
  {
    if Runs(x, r, now) {
      FundsSuffice(x, r, now);
      SettleBalance(x.bal, r.sender, r.kind, MatchBook(x.books, r).orders, r.amount.amount, r.price.amount, a, d);
      StoreBalance(AfterFill(x, r), r, Matched(x, r).result.open, a, d);
    }
  }

  lemma StoreBalance(y: State, r: Request, open: nat, a: Addr, d: Denom)
    requires Screened(r)
    ensures var st := StoreUnfilled(y, r, open);
      BalanceOf(st.after.bal, a, d) == BalanceOf(y.bal, a, d) - SumOrders(Owed(a, d), st.rested)
  {
    var st := StoreUnfilled(y, r, open);
    if st.rested != [] {
      assert st.rested == [st.rested[0]];
    }
  }

  /** A taker's holdings of the traded denomination: a buyer gains the filled amount exactly; in the price
      denomination it pays at most the fills' cost (less when it fills its own orders). */
  lemma {:induction false} TakerGains(taker: Addr, kind: OrderKind, fills: seq<Fill>, ad: Denom, pd: Denom)
    requires kind == BuyOrder || kind == SellOrder
    requires ad != pd
    requires forall f :: f in fills ==> f.amount >= 0 && OnMarket(f.maker, Opposite(kind), ad, pd)
    ensures kind == BuyOrder ==>
      Gains(taker, ad, taker, fills) == Volume(fills) && Gains(taker, pd, taker, fills) >= -Cost(fills)
    ensures kind == SellOrder ==>
      Gains(taker, pd, taker, fills) == Cost(fills) && Gains(taker, ad, taker, fills) >= -Volume(fills)
  {
    if fills != [] {
      assert forall f :: f in fills[1..] ==> f in fills;
      TakerGains(taker, kind, fills[1..], ad, pd);
      assert fills[0] in fills;
      assert fills[0].amount * fills[0].maker.price.amount >= 0;
    }
  }

  /** The fills of an order that got past the checks: on the opposite side of its market, adding up with the open
      part to the request, and within the limit price. */
  lemma ExecutedFills(x: State, r: Request, now: int)
    requires Valid(x) && Runs(x, r, now)
    ensures Screened(r)
    ensures var m := Matched(x, r).result;
      && m.fills == Process(x, r, now).flow.fills
      && Volume(m.fills) + m.open == r.amount.amount && Volume(m.fills) >= 0
      && (if r.kind == BuyOrder then Cost(m.fills) <= Volume(m.fills) * r.price.amount
                               else Cost(m.fills) >= Volume(m.fills) * r.price.amount)
      && (forall f :: f in m.fills ==>
            f.amount >= 0 && OnMarket(f.maker, Opposite(r.kind), r.amount.denom, r.price.denom))
  {
    FundsSuffice(x, r, now);
    var fills := Matched(x, r).result.fills;
    var orders := MatchBook(x.books, r).orders;
    MatchShape(orders, r.kind, r.amount.amount, r.price.amount);
    MatchHonoursLimit(orders, r.kind, r.amount.amount, r.price.amount);
    forall f | f in fills
      ensures f.amount >= 0 && OnMarket(f.maker, Opposite(r.kind), r.amount.denom, r.price.denom)
    {
      var i :| 0 <= i < |fills| && fills[i] == f;
      assert f.maker == orders[i];
    }
    VolumeNonNegative(fills);
  }

  lemma {:induction false} VolumeNonNegative(fills: seq<Fill>)
    requires forall f :: f in fills ==> f.amount >= 0
    ensures Volume(fills) >= 0
  {
    if fills != [] {
      assert fills[0] in fills && forall f :: f in fills[1..] ==> f in fills;
      VolumeNonNegative(fills[1..]);
    }
  }

  /** What an accepted order locks for its open part. */
  lemma LockedByAccepted(x: State, r: Request, now: int)
    requires Valid(x) && Process(x, r, now).outcome.Accepted?
    ensures var s := Process(x, r, now);
      forall d :: SumOrders(Owed(r.sender, d), s.flow.rested)
                  == In(Required(r.kind, r.amount.denom, r.price.denom, s.outcome.openAmount.amount, r.price.amount), d)
  {
    AcceptedByLoop(x, r, now);
    FundsSuffice(x, r, now);
    var s := Process(x, r, now);
    if s.flow.rested != [] {
      assert s.flow.rested == [s.flow.rested[0]];
      assert Escrow(s.flow.rested[0])
        == Required(r.kind, r.amount.denom, r.price.denom, s.outcome.openAmount.amount, r.price.amount);
    }
  }

  /** A buyer receives exactly the filled amount, and its outlay plus lock stay within amount * price. */
  lemma BuyLimitHonoured(x: State, r: Request, now: int)
    requires Valid(x) && Process(x, r, now).outcome.Accepted? && r.kind == BuyOrder
    ensures var s := Process(x, r, now);
      var filled := r.amount.amount - s.outcome.openAmount.amount;
      && 0 <= filled <= r.amount.amount && filled == Volume(s.flow.fills)
      && BalanceOf(s.after.bal, r.sender, r.amount.denom) == BalanceOf(x.bal, r.sender, r.amount.denom) + filled
      && BalanceOf(s.after.bal, r.sender, r.price.denom)
           >= BalanceOf(x.bal, r.sender, r.price.denom) - r.amount.amount * r.price.amount
  {
    AcceptedByLoop(x, r, now);
    ExecutedFills(x, r, now);
    var s := Process(x, r, now);
    LockedByAccepted(x, r, now);
    TakerGains(r.sender, r.kind, s.flow.fills, r.amount.denom, r.price.denom);
    ProcessBalance(x, r, now, r.sender, r.amount.denom);
    ProcessBalance(x, r, now, r.sender, r.price.denom);
    Distribute(Volume(s.flow.fills), s.outcome.openAmount.amount, r.price.amount);
  }

  /** A seller is credited at least filled * price and gives up at most the amount. */
  lemma SellLimitHonoured(x: State, r: Request, now: int)
    requires Valid(x) && Process(x, r, now).outcome.Accepted? && r.kind == SellOrder
    ensures var s := Process(x, r, now);
      var filled := r.amount.amount - s.outcome.openAmount.amount;
      && 0 <= filled <= r.amount.amount && filled == Volume(s.flow.fills)
      && BalanceOf(s.after.bal, r.sender, r.price.denom)
           >= BalanceOf(x.bal, r.sender, r.price.denom) + filled * r.price.amount
      && BalanceOf(s.after.bal, r.sender, r.amount.denom)
           >= BalanceOf(x.bal, r.sender, r.amount.denom) - r.amount.amount
  {
    AcceptedByLoop(x, r, now);
    ExecutedFills(x, r, now);
    var s := Process(x, r, now);
    LockedByAccepted(x, r, now);
    TakerGains(r.sender, r.kind, s.flow.fills, r.amount.denom, r.price.denom);
    ProcessBalance(x, r, now, r.sender, r.amount.denom);
    ProcessBalance(x, r, now, r.sender, r.price.denom);
  }

  lemma PositiveProduct(a: int, b: int)
    requires a > 0 && b > 0
    ensures a * b > 0
  {
  }

  lemma Distribute(a: int, b: int, p: int)
    ensures a * p + b * p == (a + b) * p
  {
  }

  // ---- refusals ----

  ghost predicate SameBalances(b: Balances, c: Balances) {
    forall a, d :: BalanceOf(b, a, d) == BalanceOf(c, a, d)
  }

  function OrdersAt(books: BookStore, k: string): seq<LimitOrder> {
    if k in books then books[k].orders else []
  }

  /** The same resting orders under every key. */
  ghost predicate SameOrders(books: BookStore, others: BookStore) {
    forall k :: OrdersAt(books, k) == OrdersAt(others, k)
  }

  /** The first stored order on the other side accepts the request, so at least one execution takes place. */
  ghost predicate Executes(x: State, r: Request, now: int) {
    && Runs(x, r, now)
    && MatchBook(x.books, r).orders != []
    && Eligible(r.kind, r.price.amount, MatchBook(x.books, r).orders[0])
  }

  /** An execution that is not followed by a lock shows in the taker's balance. */
  lemma ExecutionShows(x: State, r: Request, now: int)
    requires Valid(x) && Executes(x, r, now) && !Process(x, r, now).outcome.Accepted?
    ensures !SameBalances(x.bal, Process(x, r, now).after.bal)
  {
    FundsSuffice(x, r, now);
    ExecutedFills(x, r, now);
    var fills := Process(x, r, now).flow.fills;
    MatchShape(MatchBook(x.books, r).orders, r.kind, r.amount.amount, r.price.amount);
    TakerGains(r.sender, r.kind, fills, r.amount.denom, r.price.denom);
    VolumeNonNegative(fills[1..]);
    assert fills[0].amount > 0 && Volume(fills) > 0;
    PositiveProduct(Volume(fills), r.price.amount);
    var d := if r.kind == BuyOrder then r.amount.denom else r.price.denom;
    ProcessBalance(x, r, now, r.sender, d);
    assert BalanceOf(Process(x, r, now).after.bal, r.sender, d) > BalanceOf(x.bal, r.sender, d);
  }
}
