/** Whole runs: orders, expiry sweeps, pool creations and trades interleaved in any way on one ledger. */
module System {
  import opened Seqs
  import opened MapSums
  import opened Bank
  import opened Orders
  import opened Books
  import opened Exchange
  import opened Processing
  import opened Sweeping
  import opened Pairing
  import opened Messages
  import opened Clp
  import opened FullReserve

  datatype Chain = Chain(ex: State, clps: CLPStore)

  datatype Action =
    | PlaceOrder(request: Request, checkedAt: int, now: int)
    | SweepExpired(sweepTime: int, keys: seq<string>)      // keys: the store iterator's order
    | CreatePool(msg: CreateMsg)
    | TradePool(sender: Addr, from: Denom, to: Denom, amount: int)

  function PoolsOf(s: Chain): Pools {
    Pools(s.ex.bal, s.clps)
  }

  ghost predicate Inv(c: Config, s: Chain) {
    && Valid(s.ex) && s.ex.nextID.Some? && Oriented(s.ex.books) && Paired(s.ex.books)
    && PoolsWellFormed(c, s.clps)
  }

  /** Only a sweep restricts its arguments: its keys list the stored books in some order. */
  ghost predicate Enabled(s: Chain, a: Action) {
    a.SweepExpired? ==> Enumerates(a.keys, s.ex.books)
  }

  ghost function ExchangeStep(s: Chain, a: Action): Step
    requires BooksWellFormed(s.ex.books) && Enabled(s, a)
  {
    match a
    case PlaceOrder(r, checkedAt, now) => Deliver(s.ex, r, checkedAt, now)
    case SweepExpired(now, keys) => Sweep(s.ex, now, keys)
    case _ => Step(s.ex, SweepDone, NO_FLOW)
  }

  ghost function Next(c: Config, s: Chain, a: Action): Chain
    requires BooksWellFormed(s.ex.books) && Enabled(s, a)
  {
    match a
    case CreatePool(m) => var p := Created(c, PoolsOf(s), m); Chain(s.ex.(bal := p.bal), p.clps)
    case TradePool(sender, from, to, amount) =>
      s.(ex := s.ex.(bal := Traded(c, PoolsOf(s), sender, from, to, amount).bal))
    case _ => s.(ex := ExchangeStep(s, a).after)
  }

  lemma NextKeepsInv(c: Config, s: Chain, a: Action)
    requires Inv(c, s) && Enabled(s, a)
    ensures Inv(c, Next(c, s, a))
  {
    match a
    case PlaceOrder(r, checkedAt, now) => DeliverKeepsInv(s.ex, r, checkedAt, now);
    case SweepExpired(now, keys) =>
      SweepKeepsValid(s.ex, now, keys);
      SweepKeepsPaired(s.ex.books, now);
    case CreatePool(m) => CreateKeepsPools(c, PoolsOf(s), m);
    case TradePool(_, _, _, _) =>
  }

  lemma DeliverKeepsInv(x: State, r: Request, checkedAt: int, now: int)
    requires Valid(x) && x.nextID.Some? && Oriented(x.books) && Paired(x.books)
    ensures var y := Deliver(x, r, checkedAt, now).after;
      Valid(y) && y.nextID.Some? && Oriented(y.books) && Paired(y.books)
  {
    if ValidateBasic(r, checkedAt).None? {
      ProcessKeepsValid(x, r, now);
      ProcessKeepsOriented(x, r, now);
      ProcessKeepsPaired(x, r, now);
      NumberAdvances(x, r, now);
    }
  }

  /** The counter never goes back; an order rests under the number it then advances past. */
  lemma NumberAdvances(x: State, r: Request, now: int)
    requires Valid(x) && x.nextID.Some?
    ensures var s := Process(x, r, now);
      && s.after.nextID.Some? && s.after.nextID.value >= x.nextID.value
      && (s.flow.rested != [] ==>
            && |s.flow.rested| == 1 && s.flow.rested[0].orderID == x.nextID.value
            && s.after.nextID.value == x.nextID.value + 1)
  {
    if Runs(x, r, now) {
      FundsSuffice(x, r, now);
    }
  }

  // ---- runs ----

  ghost predicate Possible(c: Config, s: Chain, acts: seq<Action>)
    requires Inv(c, s)
    decreases |acts|
  {
    acts != [] ==>
      && Enabled(s, acts[0])
      && (NextKeepsInv(c, s, acts[0]); Possible(c, Next(c, s, acts[0]), acts[1..]))
  }

  ghost function Run(c: Config, s: Chain, acts: seq<Action>): (t: Chain)
    requires Inv(c, s) && Possible(c, s, acts)
    ensures Inv(c, t)
    decreases |acts|
  {
    if acts == [] then s
    else
      NextKeepsInv(c, s, acts[0]);
      Run(c, Next(c, s, acts[0]), acts[1..])
  }

  function Join(f: Flow, g: Flow): Flow {
    Flow(f.rested + g.rested, f.fills + g.fills, f.refunded + g.refunded)
  }

  /** Everything that happened to orders during a run. */
  ghost function History(c: Config, s: Chain, acts: seq<Action>): Flow
    requires Inv(c, s) && Possible(c, s, acts)
    decreases |acts|
  {
    if acts == [] then NO_FLOW
    else
      NextKeepsInv(c, s, acts[0]);
      Join(ExchangeStep(s, acts[0]).flow, History(c, Next(c, s, acts[0]), acts[1..]))
  }

  /** The start of the chain: no books, no pools, a set counter, any balances. */
  ghost predicate Genesis(s: Chain) {
    s.ex.books == map[] && s.ex.nextID.Some? && s.clps == map[]
  }

  lemma GenesisInv(c: Config, s: Chain)
    requires Genesis(s)
    ensures Inv(c, s)
    ensures forall w :: SumBooks(w, s.ex.books) == 0
  {
    assert forall id :: Resting(id, s.ex.books) == 0;
  }

  // ---- what every reachable state satisfies ----

  /** Price-time priority, unique numbers, no crossed market and one direction per pair, read off positions. */
  lemma ReachableBooks(c: Config, s: Chain, acts: seq<Action>, k1: string, i: nat, k2: string, j: nat)
    requires Genesis(s) && Inv(c, s) && Possible(c, s, acts)
    requires var books := Run(c, s, acts).ex.books;
      k1 in books && k2 in books && i < |books[k1].orders| && j < |books[k2].orders|
    ensures var x := Run(c, s, acts).ex;
      var b1, b2 := x.books[k1], x.books[k2];
      var o1, o2 := b1.orders[i], b2.orders[j];
      && Positive(o1) && o1.kind == b1.kind && o1.amount.denom == b1.amountDenom && o1.price.denom == b1.priceDenom
      && x.nextID.Some? && o1.orderID < x.nextID.value
      && (o1.orderID == o2.orderID <==> k1 == k2 && i == j)
      && (k1 == k2 && i < j ==> Precedes(b1.kind, o1, o2))
      && (b1.kind == BuyOrder && b2.kind == SellOrder && IsMarket(b2, b1.amountDenom, b1.priceDenom) ==>
            o1.price.amount < o2.price.amount)
      && !(b1.amountDenom == b2.priceDenom && b1.priceDenom == b2.amountDenom)
  {
    var x := Run(c, s, acts).ex;
    assert WellFormed(k1, x.books[k1]) && x.books[k1].orders[i] in x.books[k1].orders;
    assert x.books[k2].orders[j] in x.books[k2].orders;
    RestingBelowNext(x, k1, x.books[k1].orders[i]);
    if x.books[k1].orders[i].orderID == x.books[k2].orders[j].orderID {
      NumbersDistinct(x, k1, i, k2, j);
    }
    if k1 == k2 && i < j {
      InPriorityAt(x.books[k1].kind, x.books[k1].orders, i, j);
    }
    NeverBothDirections(x.books, k1, k2);
  }

  // ---- supply ----

  ghost function Circulating(s: Chain, d: Denom): int {
    Total(s.ex.bal, d) + SumBooks(EscrowIn(d), s.ex.books)
  }

  function Sum(values: seq<int>): int {
    if values == [] then 0 else values[0] + Sum(values[1..])
  }

  lemma {:induction false} SumConcat(a: seq<int>, b: seq<int>)
    ensures Sum(a + b) == Sum(a) + Sum(b)
  {
    if a == [] {
      assert a + b == b;
    } else {
      SumConcat(a[1..], b);
      ConcatTail(a, b);
    }
  }

  /** A sum of positive values is its last value exactly when there are no others. */
  lemma {:induction false} SumIsLast(values: seq<int>)
    requires values != [] && forall v :: v in values ==> v > 0
    ensures Sum(values) >= values[|values| - 1]
    ensures Sum(values) == values[|values| - 1] <==> |values| == 1
  {
    HeadTail(values);
    if |values| > 1 {
      SumIsLast(values[1..]);
    }
  }

  /** What a step mints of denomination `d`: the supply of the pool it creates, if it is accepted. */
  function Mints(c: Config, s: Chain, a: Action, d: Denom): seq<int> {
    if a.CreatePool? && a.msg.ticker == d && CreateRefusal(c, PoolsOf(s), a.msg).None? then [a.msg.initialSupply]
    else []
  }

  /** The supplies of all accepted creations of denomination `d` during a run. */
  ghost function Creations(c: Config, s: Chain, acts: seq<Action>, d: Denom): seq<int>
    requires Inv(c, s) && Possible(c, s, acts)
    decreases |acts|
  {
    if acts == [] then []
    else
      NextKeepsInv(c, s, acts[0]);
      Mints(c, s, acts[0], d) + Creations(c, Next(c, s, acts[0]), acts[1..], d)
  }

  lemma NextCirculating(c: Config, s: Chain, a: Action, d: Denom)
    requires Inv(c, s) && Enabled(s, a)
    ensures Circulating(Next(c, s, a), d) == Circulating(s, d) + Sum(Mints(c, s, a, d))
  {
    match a
    case PlaceOrder(r, checkedAt, now) =>
      if ValidateBasic(r, checkedAt).None? {
        ProcessConserves(s.ex, r, now, d);
      }
    case SweepExpired(now, keys) => SweepConserves(s.ex, now, keys, d);
    case CreatePool(m) => CreateSupply(c, PoolsOf(s), m, d);
    case TradePool(sender, from, to, amount) => TradeMovesOnly(c, PoolsOf(s), sender, from, to, amount, d);
  }

  /** Over any run the coins in circulation grow by exactly what the accepted creations mint. */
  lemma {:induction false} RunCirculating(c: Config, s: Chain, acts: seq<Action>, d: Denom)
    requires Inv(c, s) && Possible(c, s, acts)
    ensures Circulating(Run(c, s, acts), d) == Circulating(s, d) + Sum(Creations(c, s, acts, d))
    decreases |acts|
  {
    if acts != [] {
      NextKeepsInv(c, s, acts[0]);
      var t := Next(c, s, acts[0]);
      NextCirculating(c, s, acts[0], d);
      RunCirculating(c, t, acts[1..], d);
      SumConcat(Mints(c, s, acts[0], d), Creations(c, t, acts[1..], d));
    }
  }

  /** A step records what it mints; a non-empty ticker that is recorded, or the base coin, is never minted again. */
  lemma NextRecords(c: Config, s: Chain, a: Action, d: Denom)
    requires Inv(c, s) && Enabled(s, a)
    ensures var minted, t := Mints(c, s, a, d), Next(c, s, a);
      && |minted| <= 1 && (forall v :: v in minted ==> v > 0)
      && Supply(t.clps, d) == (if minted == [] then Supply(s.clps, d) else minted[0])
      && (minted != [] ==> d in t.clps && d != c.base && (d != "" ==> d !in s.clps))
      && (d in s.clps ==> d in t.clps)
  {
  }

  /** The recorded supply is that of the last accepted creation, and a non-empty ticker is created once at most. */
  lemma {:induction false} RunRecords(c: Config, s: Chain, acts: seq<Action>, d: Denom)
    requires Inv(c, s) && Possible(c, s, acts)
    ensures var created := Creations(c, s, acts, d);
      && Supply(Run(c, s, acts).clps, d) == (if created == [] then Supply(s.clps, d) else created[|created| - 1])
      && (forall v :: v in created ==> v > 0)
      && (d == c.base || (d != "" && d in s.clps) ==> created == [])
      && (d != "" ==> |created| <= 1)
    decreases |acts|
  {
    if acts != [] {
      NextKeepsInv(c, s, acts[0]);
      var t := Next(c, s, acts[0]);
      NextRecords(c, s, acts[0], d);
      RunRecords(c, t, acts[1..], d);
    }
  }

  /** Whole-system supply: after any interleaving the coins of a denomination, in accounts and locked in books, are the
      genesis coins plus what all accepted creations of that name minted. That is the initial supply of the pool of
      that name, if there is one, exactly when at most one creation was accepted, which only the empty ticker can
      break. */
  lemma WholeSystemSupply(c: Config, s: Chain, acts: seq<Action>, d: Denom)
    requires Genesis(s) && Inv(c, s) && Possible(c, s, acts)
    ensures var t := Run(c, s, acts);
      var created := Creations(c, s, acts, d);
      var coins := Total(t.ex.bal, d) + SumBooks(EscrowIn(d), t.ex.books);
      && coins == Total(s.ex.bal, d) + Sum(created)
      && (coins == Total(s.ex.bal, d) + (if d in t.clps then t.clps[d].initialSupply else 0) <==> |created| <= 1)
      && (d != "" || c.base == "" ==> |created| <= 1)
    ensures forall ticker :: ticker in Run(c, s, acts).clps ==>
      Run(c, s, acts).clps[ticker].currentSupply == Run(c, s, acts).clps[ticker].initialSupply
  {
    GenesisInv(c, s);
    RunCirculating(c, s, acts, d);
    RunRecords(c, s, acts, d);
    if Creations(c, s, acts, d) != [] {
      SumIsLast(Creations(c, s, acts, d));
    }
  }

  // ---- stored pools ----

  /** A run up to an action of it is a run. */
  lemma {:induction false} PrefixPossible(c: Config, s: Chain, acts: seq<Action>, i: nat)
    requires Inv(c, s) && Possible(c, s, acts) && i <= |acts|
    ensures Possible(c, s, acts[..i])
    ensures i < |acts| ==> Enabled(Run(c, s, acts[..i]), acts[i])
    decreases i
  {
    if i > 0 {
      NextKeepsInv(c, s, acts[0]);
      PrefixPossible(c, Next(c, s, acts[0]), acts[1..], i - 1);
      assert acts[..i][0] == acts[0] && acts[..i][1..] == acts[1..][..i - 1];
    } else {
      assert acts[..0] == [];
    }
  }

  /** `clp` was recorded by action `i` of the run, a creation that was accepted where it stands. */
  ghost predicate CreatedAt(c: Config, s: Chain, acts: seq<Action>, i: nat, clp: CLP)
    requires Inv(c, s) && Possible(c, s, acts)
  {
    && i < |acts| && acts[i].CreatePool? && RecordOf(clp, acts[i].msg)
    && (PrefixPossible(c, s, acts, i);
        CreateRefusal(c, PoolsOf(Run(c, s, acts[..i])), acts[i].msg).None?)
  }

  lemma CreatedLater(c: Config, s: Chain, acts: seq<Action>, i: nat, clp: CLP)
    requires Inv(c, s) && Possible(c, s, acts) && acts != []
    requires Inv(c, Next(c, s, acts[0])) && Possible(c, Next(c, s, acts[0]), acts[1..])
    requires CreatedAt(c, Next(c, s, acts[0]), acts[1..], i, clp)
    ensures CreatedAt(c, s, acts, i + 1, clp)
  {
    PrefixPossible(c, s, acts, i + 1);
    PrefixPossible(c, Next(c, s, acts[0]), acts[1..], i);
    assert acts[..i + 1][0] == acts[0] && acts[..i + 1][1..] == acts[1..][..i];
  }

  /** Every pool that is stored after a run was stored before it or has the data of a creation accepted in it. */
  lemma {:induction false} RunPools(c: Config, s: Chain, acts: seq<Action>, ticker: Denom)
    requires Inv(c, s) && Possible(c, s, acts) && ticker in Run(c, s, acts).clps
    ensures var clp := Run(c, s, acts).clps[ticker];
      (ticker in s.clps && s.clps[ticker] == clp) || exists i: nat :: CreatedAt(c, s, acts, i, clp)
    decreases |acts|
  {
    if acts != [] {
      NextKeepsInv(c, s, acts[0]);
      var t := Next(c, s, acts[0]);
      var clp := Run(c, t, acts[1..]).clps[ticker];
      RunPools(c, t, acts[1..], ticker);
      if !(ticker in s.clps && s.clps[ticker] == clp) {
        if ticker in t.clps && t.clps[ticker] == clp {
          CreateStores(c, PoolsOf(s), acts[0].msg);
          PrefixPossible(c, s, acts, 0);
          assert acts[..0] == [];
          assert CreatedAt(c, s, acts, 0, clp);
        } else {
          var i: nat :| CreatedAt(c, t, acts[1..], i, clp);
          CreatedLater(c, s, acts, i, clp);
        }
      }
    }
  }

  /** From genesis every stored pool has, field by field, the data of a creation that was accepted in the run. */
  lemma StoredPoolsWereCreated(c: Config, s: Chain, acts: seq<Action>, ticker: Denom) returns (i: nat)
    requires Genesis(s) && Inv(c, s) && Possible(c, s, acts) && ticker in Run(c, s, acts).clps
    ensures var clp := Run(c, s, acts).clps[ticker];
      && CreatedAt(c, s, acts, i, clp) && acts[i].msg.ticker == ticker
      && clp.creator == acts[i].msg.sender && clp.name == acts[i].msg.name
      && clp.decimals == acts[i].msg.decimals && clp.reserveRatio == acts[i].msg.reserveRatio
      && clp.initialSupply == acts[i].msg.initialSupply == clp.currentSupply
  {
    RunPools(c, s, acts, ticker);
    var clp := Run(c, s, acts).clps[ticker];
    i :| CreatedAt(c, s, acts, i, clp);
  }

  // ---- lifetime of an order ----

  lemma NextFlow(c: Config, s: Chain, a: Action, w: Weight)
    requires Inv(c, s) && Enabled(s, a) && Proportional(w)
    ensures SumBooks(w, Next(c, s, a).ex.books) == SumBooks(w, s.ex.books) + Net(w, ExchangeStep(s, a).flow)
  {
    match a
    case PlaceOrder(r, checkedAt, now) =>
      if ValidateBasic(r, checkedAt).None? {
        ProcessFlow(s.ex, r, now, w);
      }
    case SweepExpired(now, keys) => SweepFlow(s.ex, now, keys, w);
    case CreatePool(m) =>
    case TradePool(_, _, _, _) =>
  }

  lemma NetJoin(w: Weight, f: Flow, g: Flow)
    ensures Net(w, Join(f, g)) == Net(w, f) + Net(w, g)
  {
    SumOrdersConcat(w, f.rested, g.rested);
    SumFillsConcat(w, f.fills, g.fills);
    SumOrdersConcat(w, f.refunded, g.refunded);
  }

  lemma {:induction false} RunFlow(c: Config, s: Chain, acts: seq<Action>, w: Weight)
    requires Inv(c, s) && Possible(c, s, acts) && Proportional(w)
    ensures SumBooks(w, Run(c, s, acts).ex.books) == SumBooks(w, s.ex.books) + Net(w, History(c, s, acts))
    decreases |acts|
  {
    if acts != [] {
      NextKeepsInv(c, s, acts[0]);
      var t := Next(c, s, acts[0]);
      NextFlow(c, s, acts[0], w);
      RunFlow(c, t, acts[1..], w);
      NetJoin(w, ExchangeStep(s, acts[0]).flow, History(c, t, acts[1..]));
    }
  }

  /** One step rests a number at most once, and only the number the counter stands at. */
  lemma NextNumbers(c: Config, s: Chain, a: Action, id: int)
    requires Inv(c, s) && Enabled(s, a)
    ensures var flow := ExchangeStep(s, a).flow;
      var next, next' := s.ex.nextID.value, Next(c, s, a).ex.nextID;
      && next'.Some? && next'.value >= next
      && 0 <= SumOrders(RestingOf(id), flow.rested) <= 1
      && (SumOrders(RestingOf(id), flow.rested) == 1 ==> id == next && next'.value == next + 1)
      && Resting(id, Next(c, s, a).ex.books) + SumOrders(RestingOf(id), flow.refunded)
         <= Resting(id, s.ex.books) + SumOrders(RestingOf(id), flow.rested)
  {
    match a
    case PlaceOrder(r, checkedAt, now) =>
      if ValidateBasic(r, checkedAt).None? {
        NumberAdvances(s.ex, r, now);
        ProcessNumbers(s.ex, r, now, id);
        var rested := Process(s.ex, r, now).flow.rested;
        assert rested == [] || rested == [rested[0]];
      }
    case SweepExpired(now, keys) => RefundsCounted(s.ex, now, keys, id);
    case CreatePool(m) =>
    case TradePool(_, _, _, _) =>
  }

  lemma ProcessNumbers(x: State, r: Request, now: int, id: int)
    requires Valid(x)
    ensures var p := Process(x, r, now);
      && Resting(id, p.after.books) <= Resting(id, x.books) + SumOrders(RestingOf(id), p.flow.rested)
      && p.flow.refunded == []
  {
    if Runs(x, r, now) {
      FundsSuffice(x, r, now);
      FillKeepsValid(x, r, now);
      FillKeepsNumbers(x, r, now, id);
      StoreNumbers(AfterFill(x, r), r, Matched(x, r).result.open, id);
    }
  }

  /** Over a run a number rests at most once, and its refunds and its resting order never outnumber that. */
  lemma {:induction false} RunNumbers(c: Config, s: Chain, acts: seq<Action>, id: int)
    requires Inv(c, s) && Possible(c, s, acts)
    ensures var h := History(c, s, acts);
      && 0 <= SumOrders(RestingOf(id), h.rested) <= 1
      && (id < s.ex.nextID.value ==> SumOrders(RestingOf(id), h.rested) == 0)
      && SumOrders(RestingOf(id), h.refunded) + Resting(id, Run(c, s, acts).ex.books)
         <= Resting(id, s.ex.books) + SumOrders(RestingOf(id), h.rested)
    decreases |acts|
  {
    if acts != [] {
      NextKeepsInv(c, s, acts[0]);
      var t := Next(c, s, acts[0]);
      NextNumbers(c, s, acts[0], id);
      RunNumbers(c, t, acts[1..], id);
      var f, g := ExchangeStep(s, acts[0]).flow, History(c, t, acts[1..]);
      SumOrdersConcat(RestingOf(id), f.rested, g.rested);
      SumOrdersConcat(RestingOf(id), f.refunded, g.refunded);
    }
  }

  /** Lifetime accounting: over any run from genesis, for every order number, the amount that came to rest is what
      was filled later, is still open, or was refunded; likewise the coins locked, released to takers, still locked
      and refunded. A number comes to rest at most once, is refunded at most once, and not while it still rests. */
  lemma OrderLifetime(c: Config, s: Chain, acts: seq<Action>, id: int)
    requires Genesis(s) && Inv(c, s) && Possible(c, s, acts)
    ensures var h := History(c, s, acts);
      var books := Run(c, s, acts).ex.books;
      && SumOrders(OpenOf(id), h.rested)
         == SumFills(OpenOf(id), h.fills) + SumBooks(OpenOf(id), books) + SumOrders(OpenOf(id), h.refunded)
      && SumOrders(LockedOf(id), h.rested)
         == SumFills(LockedOf(id), h.fills) + SumBooks(LockedOf(id), books) + SumOrders(LockedOf(id), h.refunded)
      && SumOrders(RestingOf(id), h.refunded) + Resting(id, books) <= SumOrders(RestingOf(id), h.rested) <= 1
  {
    GenesisInv(c, s);
    RunFlow(c, s, acts, OpenOf(id));
    RunFlow(c, s, acts, LockedOf(id));
    RunNumbers(c, s, acts, id);
  }

  // ---- refusals ----

  /** In every reachable state and for every denomination, an order that is not accepted leaves every balance and every
      book as it was. It is accepted exactly when it passes the checks and the opposite book is that of its own market;
      it panics exactly when it passes them and that book holds orders of another market. */
  lemma ReachableRefusals(c: Config, s: Chain, acts: seq<Action>, r: Request, now: int)
    requires Genesis(s) && Inv(c, s) && Possible(c, s, acts)
    ensures var x := Run(c, s, acts).ex;
      var step := Process(x, r, now);
      var opposite := MatchBook(x.books, r);
      var owned := IsMarket(opposite, r.amount.denom, r.price.denom);
      && (!step.outcome.Accepted? ==> step.after.bal == x.bal && step.after.books == x.books)
      && (step.outcome.Accepted? <==> Admissible(x.bal, r, now) && owned)
      && (step.outcome.Panicked? <==> Admissible(x.bal, r, now) && !owned && opposite.orders != [])
  {
    OwnerDecides(Run(c, s, acts).ex, r, now);
  }

  // ---- colon-free runs ----

  ghost predicate ActionsColonFree(acts: seq<Action>) {
    forall a :: a in acts && a.PlaceOrder? ==> RequestColonFree(a.request)
  }

  lemma {:induction false} RunColonFree(c: Config, s: Chain, acts: seq<Action>)
    requires Inv(c, s) && Possible(c, s, acts) && ActionsColonFree(acts) && BooksColonFree(s.ex.books)
    ensures BooksColonFree(Run(c, s, acts).ex.books)
    decreases |acts|
  {
    if acts != [] {
      NextKeepsInv(c, s, acts[0]);
      HeadTail(acts);
      match acts[0] {
        case PlaceOrder(r, checkedAt, now) => ProcessKeepsColonFree(s.ex, r, now);
        case _ =>
      }
      RunColonFree(c, Next(c, s, acts[0]), acts[1..]);
    }
  }

  /** In a chain whose orders have colon-free denominations no market loses its keys to another one: the checks alone
      decide, and a refused order does not even use up a number. */
  lemma ReachableChecksDecide(c: Config, s: Chain, acts: seq<Action>, r: Request, now: int)
    requires Genesis(s) && Inv(c, s) && Possible(c, s, acts) && ActionsColonFree(acts) && RequestColonFree(r)
    ensures var x := Run(c, s, acts).ex;
      var step := Process(x, r, now);
      && (step.outcome.Accepted? <==> Admissible(x.bal, r, now))
      && (!step.outcome.Accepted? ==> step.outcome.Rejected? && step.after == x)
  {
    RunColonFree(c, s, acts);
    ChecksDecide(Run(c, s, acts).ex, r, now);
  }

  // ---- pool payouts ----

  lemma EscrowNonNegative(x: State, d: Denom)
    requires BooksWellFormed(x.books)
    ensures SumBooks(EscrowIn(d), x.books) >= 0
  {
    forall k | k in x.books
      ensures BookWeight(EscrowIn(d))(k, x.books[k]) >= 0
    {
      forall o | o in x.books[k].orders
        ensures WeightOf(EscrowIn(d), o) >= 0
      {
        assert WellFormed(k, x.books[k]) && OnMarket(o, x.books[k].kind, x.books[k].amountDenom, x.books[k].priceDenom);
      }
      SumOrdersNonNegative(EscrowIn(d), x.books[k].orders);
    }
    MapSumBound(x.books, BookWeight(EscrowIn(d)));
  }

  /** In every reachable state, selling a token without genesis coins to its ratio-100 pool is paid in full: the
      supply theorem bounds what the seller can hold by the pool's current supply. */
  lemma ReachableSaleIsPaid(c: Config, s: Chain, acts: seq<Action>, sender: Addr, ticker: Denom, amount: nat)
    requires Genesis(s) && Inv(c, s) && Possible(c, s, acts)
    requires ExactAt100(c) && ticker != "" && Total(s.ex.bal, ticker) == 0
    requires var t := Run(c, s, acts);
      && ticker in t.clps && t.clps[ticker].reserveRatio == 100
      && Traded(c, PoolsOf(t), sender, ticker, c.base, amount).refusal.None?
    ensures var p := PoolsOf(Run(c, s, acts));
      var trade := Traded(c, p, sender, ticker, c.base, amount);
      && trade.received
         == RunFormula100(BalanceOf(p.bal, NewCLPAddress(ticker), c.base), amount, p.clps[ticker].currentSupply)
      && trade.received <= BalanceOf(p.bal, NewCLPAddress(ticker), c.base)
      && (sender != NewCLPAddress(ticker) ==>
            && BalanceOf(trade.bal, sender, c.base) == BalanceOf(p.bal, sender, c.base) + trade.received
            && BalanceOf(trade.bal, sender, ticker) == BalanceOf(p.bal, sender, ticker) - amount)
  {
    var t := Run(c, s, acts);
    WholeSystemSupply(c, s, acts, ticker);
    EscrowNonNegative(t.ex, ticker);
    BalanceWithinTotal(t.ex.bal, sender, ticker);
    SaleIsPaid(c, PoolsOf(t), sender, ticker, amount);
  }
}
