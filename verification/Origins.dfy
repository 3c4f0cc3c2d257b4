/** Where orders come from: whatever a run fills, refunds or leaves resting is part of an order that was placed in it,
    with the sender, kind, price and expiry it was placed with. */
module Origins {
  import opened Seqs
  import opened Orders
  import opened Books
  import opened Matching
  import opened Exchange
  import opened Processing
  import opened Sweeping
  import opened Messages
  import opened Clp
  import opened System

  /** `o` is what is left of `p`: the same order with no more of it open. */
  predicate PartOf(o: LimitOrder, p: LimitOrder) {
    WithAmount(o, p.amount.amount) == p && o.amount.amount <= p.amount.amount
  }

  /** `o` is part of one of the orders in `rested`, or of one that rests in `books`. */
  ghost predicate Stems(o: LimitOrder, rested: seq<LimitOrder>, books: BookStore) {
    exists p :: PartOf(o, p) && (p in rested || Rests(p, books))
  }

  lemma StemsItself(o: LimitOrder, rested: seq<LimitOrder>, books: BookStore)
    requires o in rested || Rests(o, books)
    ensures Stems(o, rested, books)
  {
    assert PartOf(o, o);
  }

  /** What stems from a later state stems from the earlier one and what rested in between. */
  lemma StemsBefore(
    o: LimitOrder, later: seq<LimitOrder>, after: BookStore, rested: seq<LimitOrder>, before: BookStore)
    requires Stems(o, later, after)
    requires forall q :: Rests(q, after) ==> Stems(q, rested, before)
    ensures Stems(o, rested + later, before)
  {
    var p :| PartOf(o, p) && (p in later || Rests(p, after));
    if p !in later {
      var q :| PartOf(p, q) && (q in rested || Rests(q, before));
      assert PartOf(o, q);
    }
  }

  // ---- single steps ----

  lemma RestIsPart(orders: seq<LimitOrder>, kind: OrderKind, want: nat, limit: int, o: LimitOrder)
    requires forall o :: o in orders ==> Positive(o)
    requires o in Match(orders, kind, want, limit).rest
    ensures exists p :: PartOf(o, p) && p in orders
  {
    var k, head, f := RestIsSuffix(orders, kind, want, limit);
    SuffixMembers(orders, k);
    var p := if o in orders[k..] then o else orders[k - 1];
    assert PartOf(o, p) && p in orders;
  }

  lemma FillStems(x: State, r: Request, now: int, o: LimitOrder)
    requires BooksWellFormed(x.books) && Runs(x, r, now)
    requires Screened(r) && Rests(o, AfterFill(x, r).books)
    ensures Stems(o, [], x.books)
  {
    FundsSuffice(x, r, now);
    var mb := MatchBook(x.books, r);
    if !Rests(o, x.books) {
      assert o in Matched(x, r).result.rest;
      RestIsPart(mb.orders, r.kind, r.amount.amount, r.price.amount, o);
      var p :| PartOf(o, p) && p in mb.orders;
      assert mb.key in x.books && Rests(p, x.books);
    } else {
      StemsItself(o, [], x.books);
    }
  }

  lemma StoreStems(y: State, r: Request, open: nat, o: LimitOrder)
    requires BooksWellFormed(y.books) && Screened(r)
    requires Rests(o, StoreUnfilled(y, r, open).after.books)
    ensures o in StoreUnfilled(y, r, open).rested || Rests(o, y.books)
  {
    var st := StoreUnfilled(y, r, open);
    if st.rested != [] {
      var ob := OwnBook(y.books, r);
      InsertMembers(ob.kind, ob.orders, st.rested[0]);
      assert st.rested == [st.rested[0]];
    }
  }

  lemma ProcessStems(x: State, r: Request, now: int, o: LimitOrder)
    requires Valid(x) && Rests(o, Process(x, r, now).after.books)
    ensures Stems(o, Process(x, r, now).flow.rested, x.books)
  {
    var rested := Process(x, r, now).flow.rested;
    if Runs(x, r, now) && o !in rested {
      FundsSuffice(x, r, now);
      FillKeepsValid(x, r, now);
      StoreStems(AfterFill(x, r), r, Matched(x, r).result.open, o);
      FillStems(x, r, now, o);
    } else {
      StemsItself(o, rested, x.books);
    }
  }

  /** An order placed by `r`, or its part that came to rest. */
  predicate PlacedAs(p: LimitOrder, r: Request) {
    p == ToOrder(r, p.orderID, p.amount.amount) && 0 < p.amount.amount <= r.amount.amount
  }

  lemma ProcessRests(x: State, r: Request, now: int, p: LimitOrder)
    requires Valid(x) && p in Process(x, r, now).flow.rested
    ensures PlacedAs(p, r) && now <= r.expiresAt
  {
    ExecutedFills(x, r, now);
  }

  /** Every fill takes a positive part of an order that rested on the other side, at a price that the taker accepts. */
  ghost predicate Fair(fill: Fill, books: BookStore, r: Request) {
    && Rests(fill.maker, books) && 0 < fill.amount <= fill.maker.amount.amount
    && OnMarket(fill.maker, Opposite(r.kind), r.amount.denom, r.price.denom)
    && r.amount.denom != r.price.denom
    && Eligible(r.kind, r.price.amount, fill.maker)
  }

  lemma ProcessFills(x: State, r: Request, now: int, fill: Fill)
    requires Valid(x) && fill in Process(x, r, now).flow.fills
    ensures Fair(fill, x.books, r)
  {
    FundsSuffice(x, r, now);
    ExecutedFills(x, r, now);
    var mb := MatchBook(x.books, r);
    var fills := Matched(x, r).result.fills;
    MatchShape(mb.orders, r.kind, r.amount.amount, r.price.amount);
    var i :| 0 <= i < |fills| && fills[i] == fill;
    assert mb.orders[i] in mb.orders && mb.key in x.books;
  }

  lemma NextStems(c: Config, s: Chain, a: Action)
    requires Inv(c, s) && Enabled(s, a)
    ensures var flow := ExchangeStep(s, a).flow;
      && (forall f :: f in flow.fills ==> Rests(f.maker, s.ex.books))
      && (forall o :: o in flow.refunded ==> Rests(o, s.ex.books))
      && (forall o :: Rests(o, Next(c, s, a).ex.books) ==> Stems(o, flow.rested, s.ex.books))
  {
    var flow := ExchangeStep(s, a).flow;
    forall o | Rests(o, Next(c, s, a).ex.books)
      ensures Stems(o, flow.rested, s.ex.books)
    {
      NextRests(c, s, a, o);
    }
    match a
    case PlaceOrder(r, checkedAt, now) =>
      forall f | f in flow.fills
        ensures Rests(f.maker, s.ex.books)
      {
        ProcessFills(s.ex, r, now, f);
      }
    case SweepExpired(now, keys) => SweepIsExact(s.ex, now, keys);
    case _ =>
  }

  lemma NextRests(c: Config, s: Chain, a: Action, o: LimitOrder)
    requires Inv(c, s) && Enabled(s, a) && Rests(o, Next(c, s, a).ex.books)
    ensures Stems(o, ExchangeStep(s, a).flow.rested, s.ex.books)
  {
    if a.PlaceOrder? && ValidateBasic(a.request, a.checkedAt).None? {
      ProcessStems(s.ex, a.request, a.now, o);
    } else {
      if a.SweepExpired? {
        SweepIsExact(s.ex, a.sweepTime, a.keys);
      }
      StemsItself(o, ExchangeStep(s, a).flow.rested, s.ex.books);
    }
  }

  // ---- runs ----

  /** Whatever `h` fills or refunds and whatever rests in `after` is part of an order that rested in `before` or came to
      rest on the way. */
  ghost predicate AllStem(h: Flow, before: BookStore, after: BookStore) {
    && (forall f :: f in h.fills ==> Stems(f.maker, h.rested, before))
    && (forall o :: o in h.refunded ==> Stems(o, h.rested, before))
    && (forall o :: Rests(o, after) ==> Stems(o, h.rested, before))
  }

  lemma {:induction false} RunStems(c: Config, s: Chain, acts: seq<Action>)
    requires Inv(c, s) && Possible(c, s, acts)
    ensures AllStem(History(c, s, acts), s.ex.books, Run(c, s, acts).ex.books)
    decreases |acts|
  {
    if acts == [] {
      forall o | Rests(o, s.ex.books)
        ensures Stems(o, [], s.ex.books)
      {
        StemsItself(o, [], s.ex.books);
      }
    } else {
      NextKeepsInv(c, s, acts[0]);
      var t := Next(c, s, acts[0]);
      NextStems(c, s, acts[0]);
      RunStems(c, t, acts[1..]);
      JoinStems(ExchangeStep(s, acts[0]).flow, s.ex.books, History(c, t, acts[1..]), t.ex.books,
                Run(c, t, acts[1..]).ex.books);
    }
  }

  lemma JoinStems(f: Flow, before: BookStore, g: Flow, between: BookStore, after: BookStore)
    requires forall fill :: fill in f.fills ==> Rests(fill.maker, before)
    requires forall o :: o in f.refunded ==> Rests(o, before)
    requires forall o :: Rests(o, between) ==> Stems(o, f.rested, before)
    requires AllStem(g, between, after)
    ensures AllStem(Join(f, g), before, after)
  {
    forall o | Rests(o, before) || Stems(o, g.rested, between)
      ensures Stems(o, Join(f, g).rested, before)
    {
      if Rests(o, before) {
        StemsItself(o, Join(f, g).rested, before);
      } else {
        StemsBefore(o, g.rested, between, f.rested, before);
      }
    }
  }

  /** An order whose message passed validation and that had not expired when it was processed. */
  predicate Validated(a: Action) {
    a.PlaceOrder? && ValidateBasic(a.request, a.checkedAt).None? && a.now <= a.request.expiresAt
  }

  /** Every order that came to rest was placed by a valid action of the run. */
  lemma {:induction false} RunRested(c: Config, s: Chain, acts: seq<Action>, p: LimitOrder) returns (i: nat)
    requires Inv(c, s) && Possible(c, s, acts) && p in History(c, s, acts).rested
    ensures i < |acts| && Validated(acts[i]) && PlacedAs(p, acts[i].request)
    decreases |acts|
  {
    NextKeepsInv(c, s, acts[0]);
    if p in ExchangeStep(s, acts[0]).flow.rested {
      i := 0;
      ProcessRests(s.ex, acts[0].request, acts[0].now, p);
    } else {
      i := RunRested(c, Next(c, s, acts[0]), acts[1..], p);
      i := i + 1;
    }
  }

  /** A number comes to rest once, so it names one order. */
  lemma NumbersName(c: Config, s: Chain, acts: seq<Action>, p: LimitOrder, q: LimitOrder)
    requires Inv(c, s) && Possible(c, s, acts)
    requires p in History(c, s, acts).rested && q in History(c, s, acts).rested && p.orderID == q.orderID
    ensures p == q
  {
    var rested := History(c, s, acts).rested;
    RunNumbers(c, s, acts, p.orderID);
    var i :| 0 <= i < |rested| && rested[i] == p;
    var j :| 0 <= j < |rested| && rested[j] == q;
    if i < j {
      CountsTwo(rested, i, j);
    } else if j < i {
      CountsTwo(rested, j, i);
    }
  }

  /** Orders keep their terms. In a run from genesis every filled, refunded or resting order is part of exactly one
      order placed in it: the one with its number, whose sender, kind, price, denomination and expiry it has. */
  lemma OrdersKeepTheirTerms(c: Config, s: Chain, acts: seq<Action>, o: LimitOrder)
    returns (p: LimitOrder, i: nat)
    requires Genesis(s) && Inv(c, s) && Possible(c, s, acts)
    requires var h := History(c, s, acts);
      || (exists f :: f in h.fills && f.maker == o)
      || o in h.refunded
      || Rests(o, Run(c, s, acts).ex.books)
    ensures p in History(c, s, acts).rested && PartOf(o, p)
    ensures forall q :: q in History(c, s, acts).rested && q.orderID == o.orderID ==> q == p
    ensures i < |acts| && Validated(acts[i]) && PlacedAs(p, acts[i].request)
  {
    RunStems(c, s, acts);
    var h := History(c, s, acts);
    p :| PartOf(o, p) && (p in h.rested || Rests(p, s.ex.books));
    i := RunRested(c, s, acts, p);
    forall q | q in h.rested && q.orderID == o.orderID
      ensures q == p
    {
      NumbersName(c, s, acts, p, q);
    }
  }
}
