/** Continuous-liquidity pools on the shared ledger: creation mints a token's whole supply into the pool account, a
    trade runs one or two legs against pools. */
module Clp {
  import opened Options
  import opened Bank

  datatype CLP = CLP(
    creator: Addr, ticker: Denom, name: string, decimals: int, reserveRatio: int,
    initialSupply: int, currentSupply: int, accountAddress: Addr)

  type CLPStore = map<string, CLP>

  /** Coins emitted by a pool: the pool, its base-coin balance, the coins paid, and whether it is a buy. */
  type Emission = (CLP, nat, nat, bool) -> nat

  datatype Config = Config(base: Denom, emission: Emission)

  datatype Pools = Pools(bal: Balances, clps: CLPStore)

  datatype ClpError =
    | InvalidInitialSupply | InvalidInitialBaseCoins | InvalidTickerName | CLPExists | InvalidReserveRatio
    | InsufficientFunds | CLPNotExists | CLPEmpty | SameCoin | NotEnoughCoins

  datatype CreateMsg = CreateMsg(
    sender: Addr, ticker: Denom, name: string, decimals: int, reserveRatio: int,
    initialSupply: int, initialBaseCoins: int)

  function NewCLPAddress(ticker: Denom): Addr {
    "t0clpaddr" + ticker
  }

  lemma AddressInjective(t1: Denom, t2: Denom)
    ensures NewCLPAddress(t1) == NewCLPAddress(t2) <==> t1 == t2
  {
    assert NewCLPAddress(t1)[9..] == t1 && NewCLPAddress(t2)[9..] == t2;
  }

  function NewCLP(m: CreateMsg): CLP {
    CLP(m.sender, m.ticker, m.name, m.decimals, m.reserveRatio, m.initialSupply, m.initialSupply,
        NewCLPAddress(m.ticker))
  }

  const ABSENT := CLP("", "", "", 0, 0, 0, 0, "")

  /** The stored pool; a missing one reads as the record with the empty ticker. */
  function GetCLP(clps: CLPStore, ticker: Denom): CLP {
    if ticker in clps then clps[ticker] else ABSENT
  }

  // ---- creation ----

  function CreateRefusal(c: Config, p: Pools, m: CreateMsg): Option<ClpError> {
    if m.initialSupply <= 0 then Some(InvalidInitialSupply)
    else if m.initialBaseCoins <= 0 then Some(InvalidInitialBaseCoins)
    else if m.ticker == c.base then Some(InvalidTickerName)
    else if GetCLP(p.clps, m.ticker).ticker != "" then Some(CLPExists)
    else if m.reserveRatio <= 0 || m.reserveRatio > 100 then Some(InvalidReserveRatio)
    else if !Covers(p.bal, m.sender, Coin(c.base, m.initialBaseCoins)) then Some(InsufficientFunds)
    else None
  }

  function Created(c: Config, p: Pools, m: CreateMsg): Pools {
    if CreateRefusal(c, p, m).Some? then p
    else
      var base := Coin(c.base, m.initialBaseCoins);
      var pool := NewCLPAddress(m.ticker);
      Pools(
        Credited(Credited(Debited(p.bal, m.sender, base), pool, base), pool, Coin(m.ticker, m.initialSupply)),
        p.clps[m.ticker := NewCLP(m)])
  }

  /** The supply that a pool's creation added to denomination `d`. */
  function Supply(clps: CLPStore, d: Denom): int {
    if d in clps then clps[d].initialSupply else 0
  }

  /** Stored pools are what creation writes, and their supply never changes. */
  ghost predicate PoolsWellFormed(c: Config, clps: CLPStore) {
    forall t :: t in clps ==>
      && clps[t].ticker == t && t != c.base && clps[t].accountAddress == NewCLPAddress(t)
      && clps[t].currentSupply == clps[t].initialSupply > 0 && 0 < clps[t].reserveRatio <= 100
  }

  /** What creation moves: the initial base coins from the sender to the pool account, and the whole supply, newly
      minted, to the pool account; no other balance changes. */
  lemma CreateEffect(c: Config, p: Pools, m: CreateMsg, a: Addr, d: Denom)
    requires CreateRefusal(c, p, m).None?
    ensures var q := Created(c, p, m);
      var pool := NewCLPAddress(m.ticker);
      && BalanceOf(q.bal, a, d)
         == BalanceOf(p.bal, a, d)
            - (if a == m.sender && d == c.base then m.initialBaseCoins else 0)
            + (if a == pool && d == c.base then m.initialBaseCoins else 0)
            + (if a == pool && d == m.ticker then m.initialSupply else 0)
      && GetCLP(q.clps, m.ticker).accountAddress == pool
      && (m.ticker != "" ==> m.ticker !in p.clps || p.clps[m.ticker].ticker == "")
  {
  }

  lemma CreateKeepsPools(c: Config, p: Pools, m: CreateMsg)
    requires PoolsWellFormed(c, p.clps)
    ensures PoolsWellFormed(c, Created(c, p, m).clps)
    ensures forall t :: t in p.clps && t != "" ==> t in Created(c, p, m).clps && Created(c, p, m).clps[t] == p.clps[t]
  {
  }

  /** `clp` is the record of the pool that `m` asks for. */
  predicate RecordOf(clp: CLP, m: CreateMsg) {
    && clp.creator == m.sender && clp.ticker == m.ticker && clp.name == m.name && clp.decimals == m.decimals
    && clp.reserveRatio == m.reserveRatio && clp.initialSupply == m.initialSupply
    && clp.currentSupply == m.initialSupply && clp.accountAddress == "t0clpaddr" + m.ticker
  }

  /** A creation takes effect exactly when its numbers are positive, its ticker is not the base coin's and names no
      pool yet, unless it is empty, its ratio is a percentage, and the sender owns the base coins. It then stores the
      message's own data under the ticker, field by field, and leaves every other record alone; otherwise it changes
      nothing. */
  lemma CreateStores(c: Config, p: Pools, m: CreateMsg)
    requires PoolsWellFormed(c, p.clps)
    ensures var q := Created(c, p, m);
      var accepted :=
        && m.initialSupply > 0 && m.initialBaseCoins > 0 && m.ticker != c.base
        && (m.ticker == "" || m.ticker !in p.clps)
        && 1 <= m.reserveRatio <= 100
        && m.initialBaseCoins <= BalanceOf(p.bal, m.sender, c.base);
      && (CreateRefusal(c, p, m).None? <==> accepted)
      && (accepted ==>
            && m.ticker in q.clps
            && q.clps[m.ticker].creator == m.sender && q.clps[m.ticker].ticker == m.ticker
            && q.clps[m.ticker].name == m.name && q.clps[m.ticker].decimals == m.decimals
            && q.clps[m.ticker].reserveRatio == m.reserveRatio
            && q.clps[m.ticker].initialSupply == m.initialSupply && q.clps[m.ticker].currentSupply == m.initialSupply
            && q.clps[m.ticker].accountAddress == "t0clpaddr" + m.ticker && RecordOf(q.clps[m.ticker], m))
      && (forall t :: t != m.ticker ==> (t in q.clps <==> t in p.clps) && (t in p.clps ==> q.clps[t] == p.clps[t]))
      && (!accepted ==> q == p)
  {
  }

  /** Which error a creation returns, in the order of the checks. */
  lemma CreateRefuses(c: Config, p: Pools, m: CreateMsg)
    requires PoolsWellFormed(c, p.clps)
    ensures var refusal := CreateRefusal(c, p, m);
      var positive := m.initialSupply > 0 && m.initialBaseCoins > 0;
      var taken := m.ticker != "" && m.ticker in p.clps;
      var named := positive && m.ticker != c.base && !taken;
      && (refusal == Some(InvalidInitialSupply) <==> m.initialSupply <= 0)
      && (refusal == Some(InvalidInitialBaseCoins) <==> m.initialSupply > 0 && m.initialBaseCoins <= 0)
      && (refusal == Some(InvalidTickerName) <==> positive && m.ticker == c.base)
      && (refusal == Some(CLPExists) <==> positive && m.ticker != c.base && taken)
      && (refusal == Some(InvalidReserveRatio) <==> named && (m.reserveRatio < 1 || m.reserveRatio > 100))
      && (refusal == Some(InsufficientFunds) <==>
            named && 1 <= m.reserveRatio <= 100 && BalanceOf(p.bal, m.sender, c.base) < m.initialBaseCoins)
  {
  }

  /** The coins of denomination `d` that a creation brings into circulation. */
  function Minted(c: Config, p: Pools, m: CreateMsg, d: Denom): int {
    if CreateRefusal(c, p, m).None? && m.ticker == d then m.initialSupply else 0
  }

  /** Creation adds to each denomination what it mints. It keeps the difference between coins and recorded supply
      except when it accepts the empty ticker again, which overwrites the supply recorded for it before. */
  lemma CreateSupply(c: Config, p: Pools, m: CreateMsg, d: Denom)
    requires PoolsWellFormed(c, p.clps)
    ensures Total(Created(c, p, m).bal, d) == Total(p.bal, d) + Minted(c, p, m, d)
    ensures var q := Created(c, p, m);
      Total(q.bal, d) - Supply(q.clps, d) == Total(p.bal, d) - Supply(p.clps, d)
      <==> !(CreateRefusal(c, p, m).None? && d == m.ticker == "" && "" in p.clps)
  {
    if CreateRefusal(c, p, m).None? {
      var base := Coin(c.base, m.initialBaseCoins);
      var pool := NewCLPAddress(m.ticker);
      var b1 := Debited(p.bal, m.sender, base);
      TotalDebited(p.bal, m.sender, base, d);
      TotalCredited(b1, pool, base, d);
      TotalCredited(Credited(b1, pool, base), pool, Coin(m.ticker, m.initialSupply), d);
    }
  }

  /** The empty ticker escapes the existence check: it can be created twice, and the coins of the first creation
      stay in circulation while only the second supply is recorded. */
  lemma EmptyTickerMintsTwice(c: Config, sender: Addr)
    requires c.base != ""
    ensures var m := CreateMsg(sender, "", "", 0, 100, 1, 1);
      var p := Pools(map[(sender, c.base) := 2], map[]);
      var q := Created(c, Created(c, p, m), m);
      Total(q.bal, "") - Supply(q.clps, "") == Total(p.bal, "") - Supply(p.clps, "") + 1
  {
    var m := CreateMsg(sender, "", "", 0, 100, 1, 1);
    var p := Pools(map[(sender, c.base) := 2], map[]);
    CreateSupply(c, p, m, "");
    CreateSupply(c, Created(c, p, m), m, "");
  }

  // ---- trades ----

  datatype Leg = Leg(bal: Balances, refusal: Option<ClpError>, emitted: nat)

  /** One leg: pay `paid` coins to the pool, then receive the emission; both sends may silently do nothing. */
  function ProcessTrade(c: Config, p: Pools, sender: Addr, ticker: Denom, paid: nat, buy: bool): Leg {
    var clp := GetCLP(p.clps, ticker);
    var baseBalance := BalanceOf(p.bal, clp.accountAddress, c.base);
    var from, to := if buy then c.base else clp.ticker, if buy then clp.ticker else c.base;
    if clp.ticker == "" then Leg(p.bal, Some(CLPNotExists), 0)
    else if (buy && BalanceOf(p.bal, clp.accountAddress, clp.ticker) <= 0) || (!buy && baseBalance <= 0) then
      Leg(p.bal, Some(CLPEmpty), 0)
    else
      var emitted := c.emission(clp, baseBalance, paid, buy);
      var b1 := SentIfCovered(p.bal, sender, clp.accountAddress, Coin(from, paid));
      Leg(SentIfCovered(b1, clp.accountAddress, sender, Coin(to, emitted)), None, emitted)
  }

  datatype TradeResult = TradeResult(bal: Balances, refusal: Option<ClpError>, received: nat, baseMoved: nat)

  function Traded(c: Config, p: Pools, sender: Addr, from: Denom, to: Denom, amount: int): TradeResult {
    if from == to then TradeResult(p.bal, Some(SameCoin), 0, 0)
    else if amount <= 0 || BalanceOf(p.bal, sender, from) < amount then TradeResult(p.bal, Some(NotEnoughCoins), 0, 0)
    else if from == c.base then
      var leg := ProcessTrade(c, p, sender, to, amount, true);
      TradeResult(leg.bal, leg.refusal, leg.emitted, amount)
    else if to == c.base then
      var leg := ProcessTrade(c, p, sender, from, amount, false);
      TradeResult(leg.bal, leg.refusal, leg.emitted, leg.emitted)
    else
      var leg1 := ProcessTrade(c, p, sender, from, amount, false);
      if leg1.refusal.Some? then TradeResult(leg1.bal, leg1.refusal, 0, 0)
      else
        var leg2 := ProcessTrade(c, p.(bal := leg1.bal), sender, to, leg1.emitted, true);
        if leg2.refusal.Some? then TradeResult(leg2.bal, leg2.refusal, 0, 0)
        else TradeResult(leg2.bal, None, leg2.emitted, leg1.emitted)
  }

  lemma LegMovesOnly(c: Config, p: Pools, sender: Addr, ticker: Denom, paid: nat, buy: bool, d: Denom)
    ensures Total(ProcessTrade(c, p, sender, ticker, paid, buy).bal, d) == Total(p.bal, d)
  {
    var leg := ProcessTrade(c, p, sender, ticker, paid, buy);
    if leg.refusal.None? {
      var clp := GetCLP(p.clps, ticker);
      var from, to := if buy then c.base else clp.ticker, if buy then clp.ticker else c.base;
      TotalSent(p.bal, sender, clp.accountAddress, Coin(from, paid), d);
      var b1 := SentIfCovered(p.bal, sender, clp.accountAddress, Coin(from, paid));
      TotalSent(b1, clp.accountAddress, sender, Coin(to, leg.emitted), d);
    }
  }

  /** Whatever the emission says and whichever sends fail, a trade only moves coins. */
  lemma TradeMovesOnly(c: Config, p: Pools, sender: Addr, from: Denom, to: Denom, amount: int, d: Denom)
    ensures Total(Traded(c, p, sender, from, to, amount).bal, d) == Total(p.bal, d)
  {
    if from != to && amount > 0 && BalanceOf(p.bal, sender, from) >= amount {
      if from == c.base {
        LegMovesOnly(c, p, sender, to, amount, true, d);
      } else {
        LegMovesOnly(c, p, sender, from, amount, false, d);
        var leg1 := ProcessTrade(c, p, sender, from, amount, false);
        LegMovesOnly(c, p.(bal := leg1.bal), sender, to, leg1.emitted, true, d);
      }
    }
  }

  /** One leg: exactly the coins paid leave the sender if it has them, the emission arrives if the pool can cover it
      then, the pool's account mirrors both, and nobody else is affected. */
  lemma LegEffect(c: Config, p: Pools, sender: Addr, ticker: Denom, paid: nat, buy: bool, a: Addr, d: Denom)
    requires PoolsWellFormed(c, p.clps) && ProcessTrade(c, p, sender, ticker, paid, buy).refusal.None?
    ensures ticker in p.clps
    ensures var leg := ProcessTrade(c, p, sender, ticker, paid, buy);
      var pool := NewCLPAddress(ticker);
      var from, to := if buy then c.base else ticker, if buy then ticker else c.base;
      var spent := if paid <= BalanceOf(p.bal, sender, from) then paid else 0;
      var received := if leg.emitted <= BalanceOf(p.bal, pool, to) then leg.emitted else 0;
      && leg.emitted == c.emission(p.clps[ticker], BalanceOf(p.bal, pool, c.base), paid, buy)
      && BalanceOf(leg.bal, a, d)
         == BalanceOf(p.bal, a, d)
            + (if a == sender && d == to then received else 0) - (if a == sender && d == from then spent else 0)
            + (if a == pool && d == from then spent else 0) - (if a == pool && d == to then received else 0)
  {
    var leg := ProcessTrade(c, p, sender, ticker, paid, buy);
    var pool := NewCLPAddress(ticker);
    var from, to := if buy then c.base else ticker, if buy then ticker else c.base;
    var b1 := SentIfCovered(p.bal, sender, pool, Coin(from, paid));
    SentBalance(p.bal, sender, pool, Coin(from, paid), a, d);
    SentBalance(p.bal, sender, pool, Coin(from, paid), pool, to);
    SentBalance(b1, pool, sender, Coin(to, leg.emitted), a, d);
  }

  /** A one-leg trade: exactly the amount is paid, the emission is received if the pool can cover it and otherwise
      nothing is, the pool's account mirrors both, and nobody else is affected. */
  lemma DirectTrade(
    c: Config, p: Pools, sender: Addr, from: Denom, to: Denom, amount: int, a: Addr, d: Denom)
    requires PoolsWellFormed(c, p.clps) && (from == c.base || to == c.base)
    requires Traded(c, p, sender, from, to, amount).refusal.None?
    ensures var t := Traded(c, p, sender, from, to, amount);
      var token := if from == c.base then to else from;
      var pool := NewCLPAddress(token);
      var received := if t.received <= BalanceOf(p.bal, pool, to) then t.received else 0;
      && token in p.clps
      && t.received == c.emission(p.clps[token], BalanceOf(p.bal, pool, c.base), amount, from == c.base)
      && t.baseMoved == (if from == c.base then amount else t.received)
      && BalanceOf(t.bal, a, d)
         == BalanceOf(p.bal, a, d)
            + (if a == sender && d == to then received else 0) - (if a == sender && d == from then amount else 0)
            + (if a == pool && d == from then amount else 0) - (if a == pool && d == to then received else 0)
  {
    LegEffect(c, p, sender, if from == c.base then to else from, amount, from == c.base, a, d);
  }

  /** The base coins that a leg moves from the sender to the pool; a sale moves them the other way. */
  function BaseMoved(c: Config, p: Pools, sender: Addr, ticker: Denom, paid: nat, buy: bool): int {
    var pool: Addr := NewCLPAddress(ticker);
    var emitted: int := ProcessTrade(c, p, sender, ticker, paid, buy).emitted;
    if sender == pool then 0
    else if buy then (if paid <= BalanceOf(p.bal, sender, c.base) then paid else 0)
    else if emitted <= BalanceOf(p.bal, pool, c.base) then -emitted
    else 0
  }

  lemma LegBase(c: Config, p: Pools, sender: Addr, ticker: Denom, paid: nat, buy: bool)
    requires PoolsWellFormed(c, p.clps) && ticker != c.base
    requires ProcessTrade(c, p, sender, ticker, paid, buy).refusal.None?
    ensures var b := ProcessTrade(c, p, sender, ticker, paid, buy).bal;
      var moved := BaseMoved(c, p, sender, ticker, paid, buy);
      forall a :: BalanceOf(b, a, c.base)
                  == BalanceOf(p.bal, a, c.base)
                     + (if a == NewCLPAddress(ticker) then moved else 0) - (if a == sender then moved else 0)
  {
    forall a
      ensures var b := ProcessTrade(c, p, sender, ticker, paid, buy).bal;
        var moved := BaseMoved(c, p, sender, ticker, paid, buy);
        BalanceOf(b, a, c.base)
        == BalanceOf(p.bal, a, c.base)
           + (if a == NewCLPAddress(ticker) then moved else 0) - (if a == sender then moved else 0)
    {
      LegEffect(c, p, sender, ticker, paid, buy, a, c.base);
    }
  }

  // ---- bridged trades ----

  /** A token-to-token trade leaves the sender's base coins unchanged exactly when the first pool owns the base coins
      that it emits for the amount, or does not and the sender could not fund the second leg either; for a sender that
      is itself one of the two pools, exactly when nothing is emitted or the emission is not covered. Between a sender
      and pools that differ, a covered emission leaves the first pool and enters the second in full. */
  lemma BridgedTrade(c: Config, p: Pools, sender: Addr, from: Denom, to: Denom, amount: int)
    requires PoolsWellFormed(c, p.clps)
    requires from != c.base && to != c.base
    requires Traded(c, p, sender, from, to, amount).refusal.None?
    ensures from in p.clps && amount > 0
    ensures var t := Traded(c, p, sender, from, to, amount);
      var pool1, pool2 := NewCLPAddress(from), NewCLPAddress(to);
      var poolBase := BalanceOf(p.bal, pool1, c.base);
      var senderBase := BalanceOf(p.bal, sender, c.base);
      var emitted := c.emission(p.clps[from], poolBase, amount, false);
      && t.baseMoved == emitted
      && (BalanceOf(t.bal, sender, c.base) == senderBase <==>
            if sender == pool1 || sender == pool2 then emitted == 0 || emitted > poolBase
            else emitted <= poolBase || emitted > senderBase)
      && (emitted <= poolBase && sender != pool1 && sender != pool2 ==>
            && BalanceOf(t.bal, pool1, c.base) == poolBase - emitted
            && BalanceOf(t.bal, pool2, c.base) == BalanceOf(p.bal, pool2, c.base) + emitted)
  {
    AddressInjective(from, to);
    var leg1 := ProcessTrade(c, p, sender, from, amount, false);
    LegBase(c, p, sender, from, amount, false);
    LegBase(c, p.(bal := leg1.bal), sender, to, leg1.emitted, true);
  }

  // ---- what pool operations move ----

  /** What a creation moves to account `a`, read off its message. */
  function CreateMove(c: Config, p: Pools, m: CreateMsg, a: Addr, d: Denom): int {
    if CreateRefusal(c, p, m).Some? then 0
    else
      var pool := NewCLPAddress(m.ticker);
      (if a == pool && d == c.base then m.initialBaseCoins else 0)
      + (if a == pool && d == m.ticker then m.initialSupply else 0)
      - (if a == m.sender && d == c.base then m.initialBaseCoins else 0)
  }

  lemma CreateMoves(c: Config, p: Pools, m: CreateMsg, a: Addr, d: Denom)
    ensures BalanceOf(Created(c, p, m).bal, a, d) == BalanceOf(p.bal, a, d) + CreateMove(c, p, m, a, d)
  {
    if CreateRefusal(c, p, m).None? {
      CreateEffect(c, p, m, a, d);
    }
  }

  /** What a leg depends on: the sender's coins to pay with, and the pool's base coins and coins to pay out. */
  datatype Funds = Funds(senderHas: nat, poolBase: nat, poolHas: nat)

  /** What one leg with a listed pool moves to account `a`. A pool without coins to pay out refuses it; otherwise the
      payment goes to the pool if the sender has it and the emission to the sender if the pool has it. */
  function LegMove(c: Config, clp: CLP, sender: Addr, f: Funds, paid: nat, buy: bool, a: Addr, d: Denom): int {
    var pool := NewCLPAddress(clp.ticker);
    var from, to := if buy then c.base else clp.ticker, if buy then clp.ticker else c.base;
    var emitted := c.emission(clp, f.poolBase, paid, buy);
    var spent := if paid <= f.senderHas then paid else 0;
    var received := if emitted <= f.poolHas then emitted else 0;
    if f.poolHas == 0 then 0
    else
      (if a == sender && d == to then received else 0) - (if a == sender && d == from then spent else 0)
      + (if a == pool && d == from then spent else 0) - (if a == pool && d == to then received else 0)
  }

  predicate Listed(clps: CLPStore, ticker: Denom) {
    ticker != "" && ticker in clps
  }

  function FundsOf(c: Config, bal: Balances, sender: Addr, ticker: Denom, buy: bool): Funds {
    var pool := NewCLPAddress(ticker);
    Funds(BalanceOf(bal, sender, if buy then c.base else ticker), BalanceOf(bal, pool, c.base),
          BalanceOf(bal, pool, if buy then ticker else c.base))
  }

  /** The funds of the second leg of a bridged trade: those before the trade, plus the base coins that the first pool
      paid to the sender. */
  function BridgeFunds(c: Config, bal: Balances, sender: Addr, from: Denom, to: Denom, emitted: nat): Funds {
    var f := FundsOf(c, bal, sender, to, true);
    var poolBase := BalanceOf(bal, NewCLPAddress(from), c.base);
    var paidOut := if sender != NewCLPAddress(from) && emitted <= poolBase then emitted else 0;
    f.(senderHas := f.senderHas + paidOut,
       poolBase := f.poolBase + if sender == NewCLPAddress(to) then paidOut else 0)
  }

  /** What a trade moves to account `a`, from its arguments, the emissions and the balances before it. */
  function TradeMove(
    c: Config, p: Pools, sender: Addr, from: Denom, to: Denom, amount: int, a: Addr, d: Denom): int
  {
    if from == to || amount <= 0 || BalanceOf(p.bal, sender, from) < amount then 0
    else if from == c.base then
      if Listed(p.clps, to) then LegMove(c, p.clps[to], sender, FundsOf(c, p.bal, sender, to, true), amount, true, a, d)
      else 0
    else if !Listed(p.clps, from) then 0
    else
      var f := FundsOf(c, p.bal, sender, from, false);
      var first := LegMove(c, p.clps[from], sender, f, amount, false, a, d);
      if to == c.base || f.poolHas == 0 || !Listed(p.clps, to) then first
      else
        var emitted := c.emission(p.clps[from], f.poolBase, amount, false);
        first + LegMove(c, p.clps[to], sender, BridgeFunds(c, p.bal, sender, from, to, emitted), emitted, true, a, d)
  }

  lemma LegMoves(c: Config, p: Pools, sender: Addr, ticker: Denom, paid: nat, buy: bool, a: Addr, d: Denom)
    requires PoolsWellFormed(c, p.clps)
    ensures var leg := ProcessTrade(c, p, sender, ticker, paid, buy);
      && (leg.refusal.None? <==> Listed(p.clps, ticker) && FundsOf(c, p.bal, sender, ticker, buy).poolHas > 0)
      && BalanceOf(leg.bal, a, d)
         == BalanceOf(p.bal, a, d)
            + if Listed(p.clps, ticker)
              then LegMove(c, p.clps[ticker], sender, FundsOf(c, p.bal, sender, ticker, buy), paid, buy, a, d)
              else 0
  {
    if ProcessTrade(c, p, sender, ticker, paid, buy).refusal.None? {
      LegEffect(c, p, sender, ticker, paid, buy, a, d);
    }
  }

  lemma BridgeFunded(c: Config, p: Pools, sender: Addr, from: Denom, to: Denom, amount: nat)
    requires PoolsWellFormed(c, p.clps) && from != c.base && to != c.base && from != to
    requires ProcessTrade(c, p, sender, from, amount, false).refusal.None?
    ensures var leg := ProcessTrade(c, p, sender, from, amount, false);
      FundsOf(c, leg.bal, sender, to, true) == BridgeFunds(c, p.bal, sender, from, to, leg.emitted)
  {
    AddressInjective(from, to);
    LegEffect(c, p, sender, from, amount, false, sender, c.base);
    LegEffect(c, p, sender, from, amount, false, NewCLPAddress(to), c.base);
    LegEffect(c, p, sender, from, amount, false, NewCLPAddress(to), to);
  }

  /** A trade changes every balance by exactly what its arguments say, also when a send fails silently and when it is
      refused, which after the first leg of a bridged trade leaves that leg in place. */
  lemma TradeMoves(c: Config, p: Pools, sender: Addr, from: Denom, to: Denom, amount: int, a: Addr, d: Denom)
    requires PoolsWellFormed(c, p.clps)
    ensures BalanceOf(Traded(c, p, sender, from, to, amount).bal, a, d)
            == BalanceOf(p.bal, a, d) + TradeMove(c, p, sender, from, to, amount, a, d)
  {
    if from != to && amount > 0 && BalanceOf(p.bal, sender, from) >= amount {
      if from == c.base {
        LegMoves(c, p, sender, to, amount, true, a, d);
      } else {
        LegMoves(c, p, sender, from, amount, false, a, d);
        var leg1 := ProcessTrade(c, p, sender, from, amount, false);
        if to != c.base && leg1.refusal.None? {
          LegEffect(c, p, sender, from, amount, false, a, d);
          BridgeFunded(c, p, sender, from, to, amount);
          LegMoves(c, p.(bal := leg1.bal), sender, to, leg1.emitted, true, a, d);
        }
      }
    }
  }

  // ---- what trades report ----

  /** When a trade is refused and with which error: by its arguments, the stored pools and the balances before it. */
  lemma TradeRefuses(c: Config, p: Pools, sender: Addr, from: Denom, to: Denom, amount: int)
    requires PoolsWellFormed(c, p.clps)
    ensures var t := Traded(c, p, sender, from, to, amount);
      var refusal := t.refusal;
      var begins := from != to && 0 < amount <= BalanceOf(p.bal, sender, from);
      var pool1, pool2 := NewCLPAddress(from), NewCLPAddress(to);
      var sells, buys := from != c.base, to != c.base;
      var listed1, listed2 := from != "" && from in p.clps, to != "" && to in p.clps;
      var empty1, empty2 := BalanceOf(p.bal, pool1, c.base) == 0, BalanceOf(p.bal, pool2, to) == 0;
      && (refusal == Some(SameCoin) <==> from == to)
      && (refusal == Some(NotEnoughCoins) <==> from != to && (amount <= 0 || BalanceOf(p.bal, sender, from) < amount))
      && (refusal == Some(CLPNotExists) <==>
            begins && ((sells && !listed1) || (buys && !listed2 && (sells ==> !empty1))))
      && (refusal == Some(CLPEmpty) <==>
            begins && ((sells && listed1 && empty1) || (buys && listed2 && empty2 && (sells ==> listed1 && !empty1))))
      && (refusal.None? <==>
            begins && (sells ==> listed1 && !empty1) && (buys ==> listed2 && !empty2))
      && (refusal.Some? ==> t.received == 0)
  {
    if from != to && 0 < amount <= BalanceOf(p.bal, sender, from) {
      var first, second := if from == c.base then to else from, to;
      LegMoves(c, p, sender, first, amount, from == c.base, sender, c.base);
      var leg1 := ProcessTrade(c, p, sender, first, amount, from == c.base);
      if from != c.base && to != c.base && leg1.refusal.None? {
        BridgeFunded(c, p, sender, from, to, amount);
        LegMoves(c, p.(bal := leg1.bal), sender, to, leg1.emitted, true, sender, c.base);
      }
    }
  }

  /** What a bridged trade reports: the base coins that the first pool emits for the amount, and the tokens that the
      second pool emits for these at the base balance that it has by then. When the second pool owns these tokens, a
      sender that is neither pool receives exactly what is reported, and when it does not, nothing. */
  lemma BridgedReceipt(c: Config, p: Pools, sender: Addr, from: Denom, to: Denom, amount: int)
    requires PoolsWellFormed(c, p.clps) && from != c.base && to != c.base
    requires Traded(c, p, sender, from, to, amount).refusal.None?
    ensures from in p.clps && to in p.clps && amount > 0
    ensures var t := Traded(c, p, sender, from, to, amount);
      var pool1, pool2 := NewCLPAddress(from), NewCLPAddress(to);
      var poolBase, tokens := BalanceOf(p.bal, pool1, c.base), BalanceOf(p.bal, pool2, to);
      var moved := c.emission(p.clps[from], poolBase, amount, false);
      var secondBase := BalanceOf(p.bal, pool2, c.base) + if sender == pool2 && moved <= poolBase then moved else 0;
      && t.baseMoved == moved
      && t.received == c.emission(p.clps[to], secondBase, moved, true)
      && (sender != pool1 && sender != pool2 ==>
            && BalanceOf(t.bal, sender, to)
               == BalanceOf(p.bal, sender, to) + (if t.received <= tokens then t.received else 0)
            && BalanceOf(t.bal, sender, from) == BalanceOf(p.bal, sender, from) - amount)
  {
    AddressInjective(from, to);
    var leg1 := ProcessTrade(c, p, sender, from, amount, false);
    BridgeFunded(c, p, sender, from, to, amount);
    LegEffect(c, p, sender, from, amount, false, sender, to);
    LegEffect(c, p, sender, from, amount, false, sender, from);
    LegEffect(c, p.(bal := leg1.bal), sender, to, leg1.emitted, true, sender, to);
    LegEffect(c, p.(bal := leg1.bal), sender, to, leg1.emitted, true, sender, from);
  }

  // ---- the keeper ----

  class ClpKeeper {
    const bank: Ledger
    const config: Config
    var clps: CLPStore

    function Snapshot(): Pools
      reads this, bank
    {
      Pools(bank.balances, clps)
    }

    constructor (bank: Ledger, config: Config)
      ensures this.bank == bank && this.config == config && clps == map[] && PoolsWellFormed(config, clps)
    {
      this.bank, this.config, clps := bank, config, map[];
    }

    method SetCLP(clp: CLP)
      modifies this`clps
      ensures clps == old(clps)[clp.ticker := clp]
    {
      clps := clps[clp.ticker := clp];
    }

    method Create(m: CreateMsg) returns (refusal: Option<ClpError>)
      requires PoolsWellFormed(config, clps)
      modifies bank, this`clps
      ensures refusal == CreateRefusal(config, old(Snapshot()), m)
      ensures Snapshot() == Created(config, old(Snapshot()), m) && PoolsWellFormed(config, clps)
    {
      CreateKeepsPools(config, Snapshot(), m);
      if m.initialSupply <= 0 { return Some(InvalidInitialSupply); }
      if m.initialBaseCoins <= 0 { return Some(InvalidInitialBaseCoins); }
      if m.ticker == config.base { return Some(InvalidTickerName); }
      if GetCLP(clps, m.ticker).ticker != "" { return Some(CLPExists); }
      if m.reserveRatio <= 0 || m.reserveRatio > 100 { return Some(InvalidReserveRatio); }
      var initialBaseCoins := Coin(config.base, m.initialBaseCoins);
      var ok := bank.SubtractCoins(m.sender, initialBaseCoins);
      if !ok { return Some(InsufficientFunds); }
      var clpAddress := NewCLPAddress(m.ticker);
      ok := bank.AddCoins(clpAddress, initialBaseCoins);
      if !ok { return Some(InsufficientFunds); }
      ok := bank.AddCoins(clpAddress, Coin(m.ticker, m.initialSupply));
      SetCLP(NewCLP(m));
      refusal := None;
    }

    method ProcessCLPTrade(sender: Addr, ticker: Denom, fromAmount: nat, buy: bool)
      returns (emitted: nat, refusal: Option<ClpError>)
      modifies bank
      ensures var leg := ProcessTrade(config, old(Snapshot()), sender, ticker, fromAmount, buy);
        bank.balances == leg.bal && refusal == leg.refusal && emitted == leg.emitted
    {
      var clp := GetCLP(clps, ticker);
      var fromTicker, toTicker := clp.ticker, config.base;
      if buy {
        fromTicker, toTicker := config.base, clp.ticker;
      }
      if clp.ticker == "" { return 0, Some(CLPNotExists); }
      var baseBalance := BalanceOf(bank.balances, clp.accountAddress, config.base);
      var tokenBalance := BalanceOf(bank.balances, clp.accountAddress, clp.ticker);
      if (buy && tokenBalance <= 0) || (!buy && baseBalance <= 0) { return 0, Some(CLPEmpty); }
      emitted := config.emission(clp, baseBalance, fromAmount, buy);
      var paid := bank.SendCoins(sender, clp.accountAddress, Coin(fromTicker, fromAmount));
      var received := bank.SendCoins(clp.accountAddress, sender, Coin(toTicker, emitted));
      refusal := None;
    }

    method Trade(sender: Addr, from: Denom, to: Denom, amount: int)
      returns (received: nat, baseMoved: nat, refusal: Option<ClpError>)
      modifies bank
      ensures var t := Traded(config, old(Snapshot()), sender, from, to, amount);
        && bank.balances == t.bal && refusal == t.refusal
        && received == t.received && baseMoved == t.baseMoved
    {
      if from == to { return 0, 0, Some(SameCoin); }
      if amount <= 0 || BalanceOf(bank.balances, sender, from) < amount { return 0, 0, Some(NotEnoughCoins); }
      if from == config.base && to != config.base {
        received, refusal := ProcessCLPTrade(sender, to, amount, true);
        return received, amount, refusal;
      }
      if to == config.base && from != config.base {
        received, refusal := ProcessCLPTrade(sender, from, amount, false);
        return received, received, refusal;
      }
      baseMoved, refusal := ProcessCLPTrade(sender, from, amount, false);
      if refusal.Some? { return 0, 0, refusal; }
      received, refusal := ProcessCLPTrade(sender, to, baseMoved, true);
      if refusal.Some? { return 0, 0, refusal; }
    }
  }
}
