/** Splitting an order is invisible: two consecutive orders have the effect of one order for their sum. */
module Splitting {
  import opened Options
  import opened Seqs
  import opened Bank
  import opened Orders
  import opened Books
  import opened Matching
  import opened Settlement
  import opened Exchange
  import opened Processing

  lemma FillsAdd(o: LimitOrder, f: int, g: int, a: Addr, d: Denom, taker: Addr)
    ensures Gain(a, d, taker, Fill(o, f)) + Gain(a, d, taker, Fill(Reduced(o, f), g))
        == Gain(a, d, taker, Fill(o, f + g))
  {
    assert f * o.price.amount + g * o.price.amount == (f + g) * o.price.amount;
  }

  lemma RestPositive(orders: seq<LimitOrder>, kind: OrderKind, want: nat, limit: int)
    requires forall o :: o in orders ==> Positive(o)
    ensures forall o :: o in Match(orders, kind, want, limit).rest ==> Positive(o)
  {
    var k, head, f := RestIsSuffix(orders, kind, want, limit);
    SuffixMembers(orders, k);
    forall o | o in head + orders[k..]
      ensures Positive(o)
    {
      assert o in orders[k..] || (o == Reduced(orders[k - 1], f) && orders[k - 1] in orders);
    }
  }

  /** Matching `want1` and then `want2` against what is left is matching `want1 + want2`, up to merging the two
      executions of the order where the first match stopped. */
  ghost predicate Splits(
    orders: seq<LimitOrder>, kind: OrderKind, want1: nat, want2: nat, limit: int, a: Addr, d: Denom, taker: Addr)
    requires forall o :: o in orders ==> Positive(o)
    requires forall o :: o in Match(orders, kind, want1, limit).rest ==> Positive(o)
  {
    var first := Match(orders, kind, want1, limit);
    AddsUp(first, Match(first.rest, kind, want2, limit), Match(orders, kind, want1 + want2, limit), a, d, taker)
  }

  ghost predicate AddsUp(first: MatchResult, second: MatchResult, whole: MatchResult, a: Addr, d: Denom, taker: Addr) {
    && second.rest == whole.rest && first.open + second.open == whole.open
    && Gains(a, d, taker, first.fills) + Gains(a, d, taker, second.fills) == Gains(a, d, taker, whole.fills)
  }

  /** A common first execution, worth `g`, does not matter. */
  lemma AddsUpBehind(
    first: MatchResult, t: MatchResult, second: MatchResult, whole: MatchResult, u: MatchResult,
    g: int, a: Addr, d: Denom, taker: Addr)
    requires AddsUp(t, second, u, a, d, taker)
    requires first.open == t.open && Gains(a, d, taker, first.fills) == g + Gains(a, d, taker, t.fills)
    requires whole.rest == u.rest && whole.open == u.open
        && Gains(a, d, taker, whole.fills) == g + Gains(a, d, taker, u.fills)
    ensures AddsUp(first, second, whole, a, d, taker)
  {
  }

  lemma {:induction false} MatchSplits(
    orders: seq<LimitOrder>, kind: OrderKind, want1: nat, want2: nat, limit: int, a: Addr, d: Denom, taker: Addr)
    requires forall o :: o in orders ==> Positive(o)
    ensures forall o :: o in Match(orders, kind, want1, limit).rest ==> Positive(o)
    ensures Splits(orders, kind, want1, want2, limit, a, d, taker)
    decreases |orders|
  {
    RestPositive(orders, kind, want1, limit);
    if Stops(orders, kind, want1, limit) {
      assert want1 == 0 || Stops(orders, kind, want2, limit);
    } else if want1 < orders[0].amount.amount {
      SplitsHere(orders, kind, want1, want2, limit, a, d, taker);
    } else {
      HeadTail(orders);
      var w := want1 - orders[0].amount.amount;
      MatchSplits(orders[1..], kind, w, want2, limit, a, d, taker);
      SplitsLater(orders, kind, want1, want2, limit, a, d, taker, w,
                  Match(orders[1..], kind, w, limit), Match(orders[1..], kind, w + want2, limit));
    }
  }

  lemma StepGains(orders: seq<LimitOrder>, kind: OrderKind, want: nat, limit: int, a: Addr, d: Denom, taker: Addr)
    returns (f: nat, t: MatchResult)
    requires forall o :: o in orders ==> Positive(o)
    requires !Stops(orders, kind, want, limit)
    ensures Positive(orders[0]) && forall o :: o in orders[1..] ==> Positive(o)
    ensures f == FillAmount(orders[0], want) && t == Match(orders[1..], kind, want - f, limit)
    ensures var r := Match(orders, kind, want, limit);
      && r.rest == Leftover(orders[0], f) + t.rest && r.open == t.open
      && Gains(a, d, taker, r.fills) == Gain(a, d, taker, Fill(orders[0], f)) + Gains(a, d, taker, t.fills)
  {
    f, t := MatchStep(orders, kind, want, limit);
  }

  /** The first match consumes the first order. */
  lemma SplitsLater(
    orders: seq<LimitOrder>, kind: OrderKind, want1: nat, want2: nat, limit: int, a: Addr, d: Denom, taker: Addr,
    w: nat, t: MatchResult, u: MatchResult)
    requires forall o :: o in orders ==> Positive(o)
    requires forall o :: o in Match(orders, kind, want1, limit).rest ==> Positive(o)
    requires !Stops(orders, kind, want1, limit) && forall o :: o in orders[1..] ==> Positive(o)
    requires want1 == orders[0].amount.amount + w
    requires t == Match(orders[1..], kind, w, limit) && u == Match(orders[1..], kind, w + want2, limit)
    requires (forall o :: o in t.rest ==> Positive(o)) && AddsUp(t, Match(t.rest, kind, want2, limit), u, a, d, taker)
    ensures Splits(orders, kind, want1, want2, limit, a, d, taker)
  {
    var g := BothTakeWhole(orders, kind, want1, want1 + want2, limit, a, d, taker, w, w + want2, t, u);
    AddsUpBehind(Match(orders, kind, want1, limit), t, Match(t.rest, kind, want2, limit),
                 Match(orders, kind, want1 + want2, limit), u, g, a, d, taker);
  }

  lemma TakesWhole(
    orders: seq<LimitOrder>, kind: OrderKind, want: nat, limit: int, a: Addr, d: Denom,
    taker: Addr, w: nat, t: MatchResult)
    returns (g: int)
    requires forall o :: o in orders ==> Positive(o)
    requires !Stops(orders, kind, want, limit) && forall o :: o in orders[1..] ==> Positive(o)
    requires want == orders[0].amount.amount + w && t == Match(orders[1..], kind, w, limit)
    ensures g == Gain(a, d, taker, Fill(orders[0], orders[0].amount.amount))
    ensures var r := Match(orders, kind, want, limit);
      r.rest == t.rest && r.open == t.open && Gains(a, d, taker, r.fills) == g + Gains(a, d, taker, t.fills)
  {
    var f, t' := StepGains(orders, kind, want, limit, a, d, taker);
    assert Leftover(orders[0], f) + t.rest == t.rest;
    g := Gain(a, d, taker, Fill(orders[0], f));
  }

  lemma BothTakeWhole(
    orders: seq<LimitOrder>, kind: OrderKind, want: nat, want': nat, limit: int, a: Addr, d: Denom, taker: Addr,
    w: nat, w': nat, t: MatchResult, u: MatchResult)
    returns (g: int)
    requires forall o :: o in orders ==> Positive(o)
    requires !Stops(orders, kind, want, limit) && want' > 0 && forall o :: o in orders[1..] ==> Positive(o)
    requires want == orders[0].amount.amount + w && want' == orders[0].amount.amount + w'
    requires t == Match(orders[1..], kind, w, limit) && u == Match(orders[1..], kind, w', limit)
    ensures var r := Match(orders, kind, want, limit);
      r.rest == t.rest && r.open == t.open && Gains(a, d, taker, r.fills) == g + Gains(a, d, taker, t.fills)
    ensures var r := Match(orders, kind, want', limit);
      r.rest == u.rest && r.open == u.open && Gains(a, d, taker, r.fills) == g + Gains(a, d, taker, u.fills)
  {
    g := TakesWhole(orders, kind, want, limit, a, d, taker, w, t);
    var h := TakesWhole(orders, kind, want', limit, a, d, taker, w', u);
  }

  /** The first match stops inside the first order. */
  lemma SplitsHere(
    orders: seq<LimitOrder>, kind: OrderKind, want1: nat, want2: nat, limit: int, a: Addr, d: Denom, taker: Addr)
    requires forall o :: o in orders ==> Positive(o)
    requires forall o :: o in Match(orders, kind, want1, limit).rest ==> Positive(o)
    requires orders != [] && 0 < want1 < orders[0].amount.amount && Eligible(kind, limit, orders[0])
    ensures Splits(orders, kind, want1, want2, limit, a, d, taker)
  {
    HeadTail(orders);
    StopsInside(orders, kind, want1, limit, a, d, taker);
    if want2 > 0 {
      var rest := Match(orders, kind, want1, limit).rest;
      ConsTail(Reduced(orders[0], want1), orders[1..]);
      RestOfCut(orders, rest, kind, want1, want2, limit, a, d, taker);
    }
  }

  lemma RestOfCut(
    orders: seq<LimitOrder>, rest: seq<LimitOrder>, kind: OrderKind, want1: nat, want2: nat,
    limit: int, a: Addr, d: Denom, taker: Addr)
    requires (forall o :: o in orders ==> Positive(o)) && (forall o :: o in rest ==> Positive(o))
    requires orders != [] && 0 < want1 < orders[0].amount.amount && Eligible(kind, limit, orders[0]) && want2 > 0
    requires rest != [] && rest[0] == Reduced(orders[0], want1) && rest[1..] == orders[1..]
    ensures var second := Match(rest, kind, want2, limit);
      var whole := Match(orders, kind, want1 + want2, limit);
      && second.rest == whole.rest && second.open == whole.open
      && Gain(a, d, taker, Fill(orders[0], want1)) + Gains(a, d, taker, second.fills) == Gains(a, d, taker, whole.fills)
  {
    var h, v := StepGains(rest, kind, want2, limit, a, d, taker);
    var g, u := StepGains(orders, kind, want1 + want2, limit, a, d, taker);
    CutAgain(orders[0], want1, want2);
    assert want2 - h == want1 + want2 - g;
    FillsAdd(orders[0], want1, h, a, d, taker);
  }

  lemma StopsInside(orders: seq<LimitOrder>, kind: OrderKind, want: nat, limit: int, a: Addr, d: Denom, taker: Addr)
    requires forall o :: o in orders ==> Positive(o)
    requires orders != [] && 0 < want < orders[0].amount.amount && Eligible(kind, limit, orders[0])
    ensures var r := Match(orders, kind, want, limit);
      && r == MatchResult([Reduced(orders[0], want)] + orders[1..], [Fill(orders[0], want)], 0)
      && Gains(a, d, taker, r.fills) == Gain(a, d, taker, Fill(orders[0], want))
  {
    var f, t := MatchStep(orders, kind, want, limit);
    assert t == MatchResult(orders[1..], [], 0);
  }

  /** Filling an order in two steps or in one leaves the same of it and of the request. */
  lemma CutAgain(o: LimitOrder, want1: nat, want2: nat)
    requires Positive(o) && want1 < o.amount.amount
    ensures Positive(Reduced(o, want1))
    ensures FillAmount(o, want1 + want2) == want1 + FillAmount(Reduced(o, want1), want2)
    ensures Leftover(Reduced(o, want1), FillAmount(Reduced(o, want1), want2))
        == Leftover(o, FillAmount(o, want1 + want2))
  {
  }

  /** The parts, one after the other, for any two times at which they are not yet expired. */
  ghost predicate Parts(r1: Request, r2: Request, r: Request) {
    && r1 == r.(amount := r1.amount) && r2 == r.(amount := r2.amount)
    && r1.amount.denom == r2.amount.denom == r.amount.denom
    && r1.amount.amount > 0 && r2.amount.amount > 0 && r1.amount.amount + r2.amount.amount == r.amount.amount
  }

  /** The parts look at the same two books as the whole. */
  lemma PartsShareBooks(books: BookStore, r1: Request, r2: Request, r: Request)
    requires Parts(r1, r2, r)
    ensures MatchBook(books, r1) == MatchBook(books, r) == MatchBook(books, r2)
    ensures !r.kind.UnknownKind? ==> OwnBook(books, r1) == OwnBook(books, r) == OwnBook(books, r2)
  {
  }

  lemma PartCovered(r1: Request, r2: Request, r: Request)
    requires Parts(r1, r2, r) && r.price.amount > 0
    ensures r1.amount.amount * r.price.amount + r2.amount.amount * r.price.amount == r.amount.amount * r.price.amount
    ensures r1.amount.amount * r.price.amount <= r.amount.amount * r.price.amount
  {
    assert r2.amount.amount * r.price.amount >= 0;
  }

  lemma WholeAccepted(x: State, r: Request, now: int)
    requires Valid(x) && Process(x, r, now).outcome.Accepted?
    ensures Runs(x, r, now) && x.nextID.Some?
    ensures r.amount.amount > 0 && forall o :: o in MatchBook(x.books, r).orders ==> Positive(o)
    ensures !r.kind.UnknownKind?
    ensures Match(MatchBook(x.books, r).orders, r.kind, r.amount.amount, r.price.amount).open == 0
            || IsMarket(OwnBook(x.books, r), r.amount.denom, r.price.denom)
  {
    AcceptedByLoop(x, r, now);
    AcceptedByMatch(x, r, now);
  }

  lemma FirstPartRuns(x: State, r1: Request, r2: Request, r: Request, n1: int, now: int)
    requires Parts(r1, r2, r) && Runs(x, r, now) && !(r.expiresAt < n1)
    ensures Runs(x, r1, n1)
  {
    PartCovered(r1, r2, r);
  }

  /** What fills the whole fills the first part. */
  lemma PartFills(orders: seq<LimitOrder>, kind: OrderKind, want1: nat, want2: nat, limit: int)
    requires forall o :: o in orders ==> Positive(o)
    ensures Match(orders, kind, want1 + want2, limit).open == 0 ==> Match(orders, kind, want1, limit).open == 0
  {
    OpensAdd(orders, kind, want1, want2, limit);
  }

  lemma FirstPartAccepted(x: State, r1: Request, r2: Request, r: Request, n1: int, now: int)
    requires Valid(x) && Parts(r1, r2, r)
    requires Process(x, r, now).outcome.Accepted? && !(r.expiresAt < n1)
    ensures Runs(x, r, now) && Process(x, r1, n1).outcome.Accepted?
  {
    WholeAccepted(x, r, now);
    FirstPartRuns(x, r1, r2, r, n1, now);
    AcceptedByMatch(x, r1, n1);
    PartsShareBooks(x.books, r1, r2, r);
    PartFills(MatchBook(x.books, r).orders, r.kind, r1.amount.amount, r2.amount.amount, r.price.amount);
  }

  /** After the first part the sender can still cover the second. */
  lemma SecondPartFunded(x: State, r1: Request, r2: Request, r: Request, n1: int, n2: int, now: int)
    requires Valid(x) && Parts(r1, r2, r) && Runs(x, r, now)
    requires Process(x, r1, n1).outcome.Accepted? && !(r.expiresAt < n2)
    ensures Screen(Process(x, r1, n1).after.bal, r2, n2).None?
  {
    PartCovered(r1, r2, r);
    if r.kind == BuyOrder {
      BuyLimitHonoured(x, r1, n1);
    } else {
      SellLimitHonoured(x, r1, n1);
    }
  }

  lemma SecondPartRuns(x: State, r1: Request, r2: Request, r: Request, n1: int, n2: int, now: int)
    requires Valid(x) && Parts(r1, r2, r) && Runs(x, r, now) && Process(x, r1, n1).outcome.Accepted?
    requires !(r.expiresAt < n2)
    ensures forall o :: o in MatchBook(x.books, r).orders ==> Positive(o)
    ensures var y := Process(x, r1, n1).after;
      && Valid(y) && Runs(y, r2, n2) && y.nextID.Some?
      && MatchBook(y.books, r).orders
           == Match(MatchBook(x.books, r).orders, r.kind, r1.amount.amount, r.price.amount).rest
      && (IsMarket(OwnBook(x.books, r), r.amount.denom, r.price.denom) ==>
            IsMarket(OwnBook(y.books, r), r.amount.denom, r.price.denom))
  {
    ProcessKeepsValid(x, r1, n1);
    SecondPartFunded(x, r1, r2, r, n1, n2, now);
    AcceptedPerformsMatch(x, r1, n1);
    AcceptedByLoop(x, r1, n1);
    if MatchBook(x.books, r).orders == [] {
      assert MatchBook(Process(x, r1, n1).after.books, r).orders == [];
    }
  }

  lemma SecondPartAccepted(x: State, r1: Request, r2: Request, r: Request, n1: int, n2: int, now: int)
    requires Valid(x) && Parts(r1, r2, r) && Runs(x, r, now) && Process(x, r1, n1).outcome.Accepted?
    requires Process(x, r, now).outcome.Accepted? && !(r.expiresAt < n2)
    ensures Valid(Process(x, r1, n1).after) && Process(Process(x, r1, n1).after, r2, n2).outcome.Accepted?
  {
    SecondPartRuns(x, r1, r2, r, n1, n2, now);
    WholeAccepted(x, r, now);
    PartsShareBooks(Process(x, r1, n1).after.books, r1, r2, r);
    AcceptedFrom(MatchBook(x.books, r).orders, Process(x, r1, n1).after, r1, r2, r, n2);
  }

  /** From a state `y` whose opposite book is what the first part leaves of `orders`, the second part is accepted. */
  lemma AcceptedFrom(orders: seq<LimitOrder>, y: State, r1: Request, r2: Request, r: Request, n2: int)
    requires Parts(r1, r2, r) && Valid(y) && Runs(y, r2, n2) && y.nextID.Some? && !r.kind.UnknownKind?
    requires forall o :: o in orders ==> Positive(o)
    requires MatchBook(y.books, r2).orders == Match(orders, r.kind, r1.amount.amount, r.price.amount).rest
    requires Match(orders, r.kind, r.amount.amount, r.price.amount).open == 0
             || IsMarket(OwnBook(y.books, r2), r.amount.denom, r.price.denom)
    ensures Process(y, r2, n2).outcome.Accepted?
  {
    AcceptedByMatch(y, r2, n2);
    OpensAdd(orders, r.kind, r1.amount.amount, r2.amount.amount, r.price.amount);
  }

  lemma OpensAdd(orders: seq<LimitOrder>, kind: OrderKind, want1: nat, want2: nat, limit: int)
    requires forall o :: o in orders ==> Positive(o)
    ensures forall o :: o in Match(orders, kind, want1, limit).rest ==> Positive(o)
    ensures var first := Match(orders, kind, want1, limit);
      first.open + Match(first.rest, kind, want2, limit).open == Match(orders, kind, want1 + want2, limit).open
  {
    MatchSplits(orders, kind, want1, want2, limit, "", "", "");
  }

  /** What the open part of `r` locks of account `a`'s coins in denomination `d`. */
  function Locks(r: Request, open: int, a: Addr, d: Denom): int {
    if a == r.sender then In(Required(r.kind, r.amount.denom, r.price.denom, open, r.price.amount), d) else 0
  }

  /** Matching `r` against `orders` and locking its open part turns `before` into `after`. */
  ghost predicate Yields(
    before: Balances, orders: seq<LimitOrder>, r: Request, after: Balances, rest: seq<LimitOrder>, open: int)
  {
    && r.amount.amount > 0 && (forall o :: o in orders ==> Positive(o))
    && var m := Match(orders, r.kind, r.amount.amount, r.price.amount);
    && open == m.open && rest == m.rest
    && forall a, d :: BalanceOf(after, a, d)
                      == BalanceOf(before, a, d) + Gains(a, d, r.sender, m.fills) - Locks(r, m.open, a, d)
  }

  /** `s` does to the opposite book and to every balance what an accepted `r` does from `x`. */
  ghost predicate Accepts(x: State, r: Request, s: Step) {
    && s.outcome.Accepted?
    && Yields(x.bal, MatchBook(x.books, r).orders, r,
              s.after.bal, MatchBook(s.after.books, r).orders, s.outcome.openAmount.amount)
  }

  lemma AcceptedAccepts(x: State, r: Request, now: int)
    requires Valid(x) && Process(x, r, now).outcome.Accepted?
    ensures Accepts(x, r, Process(x, r, now))
  {
    AcceptedPerformsMatch(x, r, now);
    forall a, d
      ensures var s := Process(x, r, now);
        BalanceOf(s.after.bal, a, d)
        == BalanceOf(x.bal, a, d) + Gains(a, d, r.sender, s.flow.fills) - Locks(r, s.outcome.openAmount.amount, a, d)
    {
      AcceptedBalance(x, r, now, a, d);
    }
  }

  lemma AcceptedBalance(x: State, r: Request, now: int, a: Addr, d: Denom)
    requires Valid(x) && Process(x, r, now).outcome.Accepted?
    ensures var s := Process(x, r, now);
      BalanceOf(s.after.bal, a, d)
      == BalanceOf(x.bal, a, d) + Gains(a, d, r.sender, s.flow.fills) - Locks(r, s.outcome.openAmount.amount, a, d)
  {
    ProcessBalance(x, r, now, a, d);
    if a == r.sender {
      LockedByAccepted(x, r, now);
    } else {
      RestedIsSenders(x, r, now, a, d);
    }
  }

  lemma RestedIsSenders(x: State, r: Request, now: int, a: Addr, d: Denom)
    requires Valid(x) && a != r.sender
    ensures SumOrders(Owed(a, d), Process(x, r, now).flow.rested) == 0
  {
    if Runs(x, r, now) {
      FundsSuffice(x, r, now);
    }
    var rested := Process(x, r, now).flow.rested;
    if rested != [] {
      assert rested == [rested[0]] && rested[0].sender == r.sender;
    }
  }

  lemma LocksAdd(r1: Request, r2: Request, r: Request, open1: int, open2: int, a: Addr, d: Denom)
    requires Parts(r1, r2, r)
    ensures Locks(r1, open1, a, d) + Locks(r2, open2, a, d) == Locks(r, open1 + open2, a, d)
  {
    Distribute(open1, open2, r.price.amount);
  }

  lemma YieldsAddUp(
    r1: Request, r2: Request, r: Request, b: Balances, orders: seq<LimitOrder>,
    b1: Balances, rest1: seq<LimitOrder>, open1: int, b2: Balances, rest2: seq<LimitOrder>, open2: int,
    b3: Balances, rest3: seq<LimitOrder>, open3: int)
    requires Parts(r1, r2, r) && Yields(b, orders, r1, b1, rest1, open1) && Yields(b1, rest1, r2, b2, rest2, open2)
    requires Yields(b, orders, r, b3, rest3, open3)
    ensures rest2 == rest3 && open1 + open2 == open3 && SameBalances(b2, b3)
  {
    MatchSplits(orders, r.kind, r1.amount.amount, r2.amount.amount, r.price.amount, "", "", "");
    forall a, d
      ensures BalanceOf(b2, a, d) == BalanceOf(b3, a, d)
    {
      MatchSplits(orders, r.kind, r1.amount.amount, r2.amount.amount, r.price.amount, a, d, r.sender);
      LocksAdd(r1, r2, r, open1, open2, a, d);
    }
  }

  lemma StepsAddUp(x: State, r1: Request, r2: Request, r: Request, s1: Step, s2: Step, s: Step)
    requires Parts(r1, r2, r) && Accepts(x, r1, s1) && Accepts(s1.after, r2, s2) && Accepts(x, r, s)
    ensures MatchBook(s2.after.books, r).orders == MatchBook(s.after.books, r).orders
    ensures s1.outcome.openAmount.amount + s2.outcome.openAmount.amount == s.outcome.openAmount.amount
    ensures SameBalances(s2.after.bal, s.after.bal)
  {
    PartsShareBooks(x.books, r1, r2, r);
    PartsShareBooks(s1.after.books, r1, r2, r);
    PartsShareBooks(s2.after.books, r1, r2, r);
    YieldsAddUp(r1, r2, r, x.bal, MatchBook(x.books, r).orders,
                s1.after.bal, MatchBook(s1.after.books, r).orders, s1.outcome.openAmount.amount,
                s2.after.bal, MatchBook(s2.after.books, r).orders, s2.outcome.openAmount.amount,
                s.after.bal, MatchBook(s.after.books, r).orders, s.outcome.openAmount.amount);
  }

  /** The open part of `r` as it rests under number `id`, if anything is open. */
  function OpenPart(r: Request, id: int, open: int): seq<LimitOrder> {
    if open == 0 then [] else [ToOrder(r, id, open)]
  }

  /** `orders` with the open part of `r` inserted, if anything is open. */
  function Rested(kind: OrderKind, orders: seq<LimitOrder>, r: Request, id: int, open: int): seq<LimitOrder> {
    if open == 0 then orders else Insert(kind, orders, ToOrder(r, id, open))
  }

  /** `split` and `whole` are `before` with the open parts, or that of the whole, inserted at one position. */
  ghost predicate SideBySide(
    before: seq<LimitOrder>, split: seq<LimitOrder>, whole: seq<LimitOrder>,
    part1: seq<LimitOrder>, part2: seq<LimitOrder>, part: seq<LimitOrder>)
  {
    exists p: nat :: p <= |before|
      && split == before[..p] + (part1 + part2) + before[p..] && whole == before[..p] + part + before[p..]
  }

  lemma PartsRest(
    kind: OrderKind, before: seq<LimitOrder>, r1: Request, r2: Request, r: Request,
    id: int, open1: int, open2: int, open: int)
    requires r1.price == r2.price == r.price
    ensures SideBySide(
              before, Rested(kind, Rested(kind, before, r1, id, open1), r2, id + 1, open2),
              Rested(kind, before, r, id, open),
              OpenPart(r1, id, open1), OpenPart(r2, id + 1, open2), OpenPart(r, id, open))
  {
    var p := InsertPos(kind, before, r.price.amount);
    var o1, o2 := ToOrder(r1, id, open1), ToOrder(r2, id + 1, open2);
    InsertSplits(kind, before, o1);
    InsertSplits(kind, before, o2);
    InsertSplits(kind, before, ToOrder(r, id, open));
    InsertTwice(kind, before, o1, o2);
    NothingBetween(before, p);
    assert [o1] + [o2] == [o1, o2];
    assert [o1] + [] == [o1] && [] + [o2] == [o2];
  }

  lemma NothingBetween(orders: seq<LimitOrder>, p: nat)
    requires p <= |orders|
    ensures orders[..p] + [] + orders[p..] == orders && orders[..p] + ([] + []) + orders[p..] == orders
  {
  }

  /** `s` rests the open part of `part` in the own book of `r`, under the number it advances past. */
  ghost predicate RestsIn(x: State, part: Request, r: Request, s: Step) {
    && x.nextID.Some? && !r.kind.UnknownKind? && s.outcome.Accepted?
    && s.after.nextID == Some(x.nextID.value + 1)
    && OwnBook(s.after.books, r).orders
       == Rested(r.kind, OwnBook(x.books, r).orders, part, x.nextID.value, s.outcome.openAmount.amount)
  }

  lemma PartOwnBook(x: State, part: Request, r: Request, n: int)
    requires Valid(x) && Process(x, part, n).outcome.Accepted?
    requires part == r.(amount := part.amount) && part.amount.denom == r.amount.denom
    ensures RestsIn(x, part, r, Process(x, part, n))
  {
    OwnBookAfter(x, part, n);
  }

  lemma OwnBooksAddUp(x: State, r1: Request, r2: Request, r: Request, s1: Step, s2: Step, s: Step)
    requires Parts(r1, r2, r) && RestsIn(x, r1, r, s1) && RestsIn(s1.after, r2, r, s2) && RestsIn(x, r, r, s)
    ensures SideBySide(
              OwnBook(x.books, r).orders, OwnBook(s2.after.books, r).orders, OwnBook(s.after.books, r).orders,
              OpenPart(r1, x.nextID.value, s1.outcome.openAmount.amount),
              OpenPart(r2, x.nextID.value + 1, s2.outcome.openAmount.amount),
              OpenPart(r, x.nextID.value, s.outcome.openAmount.amount))
  {
    PartsRest(r.kind, OwnBook(x.books, r).orders, r1, r2, r, x.nextID.value, s1.outcome.openAmount.amount,
              s2.outcome.openAmount.amount, s.outcome.openAmount.amount);
  }

  /** Splitting is invisible: if the whole order is accepted then so are its parts, submitted one after the other
      before they expire, and they leave the same opposite book, the same balance in every account and denomination,
      the same total open amount, and the same own book but for the whole's resting order, which the open parts
      replace side by side. */
  lemma SplittingIsInvisible(x: State, r1: Request, r2: Request, r: Request, n1: int, n2: int, now: int)
    requires Valid(x) && Parts(r1, r2, r)
    requires Process(x, r, now).outcome.Accepted? && !(r.expiresAt < n1) && !(r.expiresAt < n2)
    ensures Process(x, r1, n1).outcome.Accepted? && Valid(Process(x, r1, n1).after)
    ensures x.nextID.Some? && !r.kind.UnknownKind?
    ensures var s1 := Process(x, r1, n1);
      var s2 := Process(s1.after, r2, n2);
      var s := Process(x, r, now);
      && s2.outcome.Accepted?
      && MatchBook(s2.after.books, r).orders == MatchBook(s.after.books, r).orders
      && s1.outcome.openAmount.amount + s2.outcome.openAmount.amount == s.outcome.openAmount.amount
      && SameBalances(s2.after.bal, s.after.bal)
      && SideBySide(
           OwnBook(x.books, r).orders, OwnBook(s2.after.books, r).orders, OwnBook(s.after.books, r).orders,
           OpenPart(r1, x.nextID.value, s1.outcome.openAmount.amount),
           OpenPart(r2, x.nextID.value + 1, s2.outcome.openAmount.amount),
           OpenPart(r, x.nextID.value, s.outcome.openAmount.amount))
  {
    FirstPartAccepted(x, r1, r2, r, n1, now);
    SecondPartAccepted(x, r1, r2, r, n1, n2, now);
    var s1 := Process(x, r1, n1);
    AcceptedAccepts(x, r, now);
    AcceptedAccepts(x, r1, n1);
    AcceptedAccepts(s1.after, r2, n2);
    StepsAddUp(x, r1, r2, r, s1, Process(s1.after, r2, n2), Process(x, r, now));
    PartOwnBook(x, r, r, now);
    PartOwnBook(x, r1, r, n1);
    PartOwnBook(s1.after, r2, r, n2);
    OwnBooksAddUp(x, r1, r2, r, s1, Process(s1.after, r2, n2), Process(x, r, now));
  }
}
