/** The application: both keepers on one ledger, and the entry points through which a block reaches them. */
module App {
  import opened Options
  import opened MapSums
  import opened Bank
  import opened Exchange
  import opened Messages
  import opened Keeper
  import opened Clp
  import opened System

  class ThorchainApp {
    const exchange: ExchangeKeeper
    const clp: ClpKeeper

    function Snapshot(): Chain
      reads exchange, exchange.bank, clp
    {
      Chain(exchange.Snapshot(), clp.clps)
    }

    /** One ledger under both keepers, in a state that satisfies the invariant of all runs. */
    ghost predicate Valid()
      reads exchange, exchange.bank, clp
    {
      clp.bank == exchange.bank && Inv(clp.config, Snapshot())
    }

    constructor (initial: Balances, config: Config, startingOrderID: int)
      ensures Valid() && Genesis(Snapshot()) && Snapshot().ex.bal == initial && clp.config == config
      ensures fresh(exchange) && fresh(exchange.bank) && fresh(clp)
    {
      var bank := new Ledger(initial);
      exchange := new ExchangeKeeper.InitGenesis(bank, startingOrderID);
      clp := new ClpKeeper(bank, config);
      new;
      GenesisInv(clp.config, Snapshot());
    }

    /** A limit order: validated as a message, then processed. */
    method DeliverLimitOrder(r: Request, checkedAt: int, now: int) returns (outcome: Outcome)
      requires Valid()
      modifies exchange.bank, exchange`books, exchange`nextOrderID
      ensures Valid()
      ensures var s := Deliver(old(Snapshot()).ex, r, checkedAt, now);
        outcome == s.outcome && Snapshot().ex == s.after && Snapshot().clps == old(Snapshot()).clps
      ensures Snapshot() == Next(clp.config, old(Snapshot()), PlaceOrder(r, checkedAt, now))
    {
      NextKeepsInv(clp.config, Snapshot(), PlaceOrder(r, checkedAt, now));
      var refusal := ValidateBasic(r, checkedAt);
      if refusal.Some? {
        return Rejected(refusal.value);
      }
      outcome := exchange.ProcessLimitOrder(r, now);
    }

    /** The start of a block; `keys` is the order in which the store iterator visited the books. */
    method BeginBlocker(now: int) returns (ghost keys: seq<string>)
      requires Valid()
      modifies exchange.bank, exchange`books
      ensures Valid() && Enumerates(keys, old(Snapshot()).ex.books)
      ensures Snapshot().ex == Sweep(old(Snapshot()).ex, now, keys).after && Snapshot().clps == old(Snapshot()).clps
      ensures Snapshot() == Next(clp.config, old(Snapshot()), SweepExpired(now, keys))
    {
      ghost var before := Snapshot();
      var panicked;
      panicked, keys := exchange.RefundExpiredLimitOrders(now);
      NextKeepsInv(clp.config, before, SweepExpired(now, keys));
    }

    method DeliverCreate(m: CreateMsg) returns (refusal: Option<ClpError>)
      requires Valid()
      modifies clp.bank, clp`clps
      ensures Valid() && refusal == CreateRefusal(clp.config, PoolsOf(old(Snapshot())), m)
      ensures var p := Created(clp.config, PoolsOf(old(Snapshot())), m);
        Snapshot().ex == old(Snapshot()).ex.(bal := p.bal) && Snapshot().clps == p.clps
      ensures Snapshot() == Next(clp.config, old(Snapshot()), CreatePool(m))
    {
      NextKeepsInv(clp.config, Snapshot(), CreatePool(m));
      refusal := clp.Create(m);
    }

    method DeliverTrade(sender: Addr, from: Denom, to: Denom, amount: int)
      returns (received: nat, baseMoved: nat, refusal: Option<ClpError>)
      requires Valid()
      modifies clp.bank
      ensures Valid()
      ensures var t := Traded(clp.config, PoolsOf(old(Snapshot())), sender, from, to, amount);
        && refusal == t.refusal && received == t.received && baseMoved == t.baseMoved
        && Snapshot().ex == old(Snapshot()).ex.(bal := t.bal) && Snapshot().clps == old(Snapshot()).clps
      ensures Snapshot() == Next(clp.config, old(Snapshot()), TradePool(sender, from, to, amount))
    {
      NextKeepsInv(clp.config, Snapshot(), TradePool(sender, from, to, amount));
      received, baseMoved, refusal := clp.Trade(sender, from, to, amount);
    }
  }
}
