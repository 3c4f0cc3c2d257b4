/** Pools with reserve ratio 100, where the formula is linear: exact emissions, when they are paid out, and round
    trips. */
module FullReserve {
  import opened Bank
  import opened Clp

  // ---- the formula ----

  /** a * ((1 + b/c)^1 - 1), rounded to the nearest integer, halves up. */
  function RunFormula100(a: nat, b: nat, c: nat): nat
    requires c > 0
  {
    (2 * a * b + c) / (2 * c)
  }

  /** The rounded value is the nearest integer to a * b / c. */
  lemma FormulaIsNearest(a: nat, b: nat, c: nat)
    requires c > 0
    ensures var y := RunFormula100(a, b, c);
      2 * c * y - c <= 2 * a * b < 2 * c * y + c
  {
    var n, d := 2 * a * b + c, 2 * c;
    assert n == d * (n / d) + n % d && 0 <= n % d < d;
  }

  /** The rounded value stays within `k` exactly when the exact value stays below `k` and a half. */
  lemma FormulaWithin(a: nat, b: nat, c: nat, k: nat)
    requires c > 0
    ensures RunFormula100(a, b, c) <= k <==> 2 * a * b < (2 * k + 1) * c
  {
    var y := RunFormula100(a, b, c);
    FormulaIsNearest(a, b, c);
    Monotone(y, k, c);
    Monotone(k + 1, y, c);
    Expand(a, b, c, y, k);
  }

  /** The rounded value stays within the factor exactly when the amount paid is small enough; paying no more than
      the denominator is. */
  lemma FormulaBound(a: nat, b: nat, c: nat)
    requires c > 0
    ensures b <= c ==> RunFormula100(a, b, c) <= a
    ensures RunFormula100(a, b, c) <= a <==> 2 * a * b < (2 * a + 1) * c
  {
    FormulaWithin(a, b, c, a);
    Monotone(b, c, a);
    Expand(a, b, c, a, a);
  }

  lemma Monotone(x: int, y: int, c: nat)
    ensures x <= y ==> x * c <= y * c
  {
  }

  lemma Expand(a: int, b: int, c: int, y: int, k: int)
    ensures (2 * k + 1) * c == 2 * (k * c) + c && (k + 1) * c == k * c + c
    ensures 2 * a * b == 2 * (b * a) && 2 * c * y == 2 * (y * c) && c * a == a * c
  {
  }

  /** The emission is exact for pools with reserve ratio 100. */
  ghost predicate ExactAt100(c: Config) {
    forall clp: CLP, base: nat, paid: nat, buy: bool ::
      clp.reserveRatio == 100 && clp.currentSupply > 0 && (buy ==> base > 0) ==>
        c.emission(clp, base, paid, buy)
        == if buy then RunFormula100(clp.currentSupply, paid, base) else RunFormula100(base, paid, clp.currentSupply)
  }

  /** A sale to a ratio-100 pool is paid out exactly when the emission is covered, which is decided by the amount
      paid; paying at most the current supply is enough. */
  lemma SaleIsPaid(c: Config, p: Pools, sender: Addr, ticker: Denom, amount: nat)
    requires ExactAt100(c) && PoolsWellFormed(c, p.clps)
    requires ticker in p.clps && p.clps[ticker].reserveRatio == 100
    requires Traded(c, p, sender, ticker, c.base, amount).refusal.None?
    ensures var t := Traded(c, p, sender, ticker, c.base, amount);
      var pool := NewCLPAddress(ticker);
      var base := BalanceOf(p.bal, pool, c.base);
      && t.received == RunFormula100(base, amount, p.clps[ticker].currentSupply)
      && (t.received <= base <==> 2 * base * amount < (2 * base + 1) * p.clps[ticker].currentSupply)
      && (amount <= p.clps[ticker].currentSupply ==> t.received <= base)
      && (sender != pool ==>
            && BalanceOf(t.bal, sender, ticker) == BalanceOf(p.bal, sender, ticker) - amount
            && BalanceOf(t.bal, sender, c.base)
               == BalanceOf(p.bal, sender, c.base) + if t.received <= base then t.received else 0)
  {
    var clp := p.clps[ticker];
    var base := BalanceOf(p.bal, clp.accountAddress, c.base);
    assert c.emission(clp, base, amount, false) == RunFormula100(base, amount, clp.currentSupply);
    FormulaBound(base, amount, clp.currentSupply);
    DirectTrade(c, p, sender, ticker, c.base, amount, sender, c.base);
    DirectTrade(c, p, sender, ticker, c.base, amount, sender, ticker);
  }

  /** A purchase from a ratio-100 pool is paid in any case; the tokens arrive exactly when the pool owns what it emits,
      which the amount paid decides. */
  lemma BuyIsPaid(c: Config, p: Pools, sender: Addr, ticker: Denom, amount: nat)
    requires ExactAt100(c) && PoolsWellFormed(c, p.clps)
    requires ticker in p.clps && p.clps[ticker].reserveRatio == 100
    requires BalanceOf(p.bal, NewCLPAddress(ticker), c.base) > 0
    requires Traded(c, p, sender, c.base, ticker, amount).refusal.None?
    ensures var t := Traded(c, p, sender, c.base, ticker, amount);
      var pool := NewCLPAddress(ticker);
      var supply, base, tokens :=
        p.clps[ticker].currentSupply, BalanceOf(p.bal, pool, c.base), BalanceOf(p.bal, pool, ticker);
      && t.received == RunFormula100(supply, amount, base)
      && (t.received <= tokens <==> 2 * supply * amount < (2 * tokens + 1) * base)
      && (sender != pool ==>
            && BalanceOf(t.bal, sender, c.base) == BalanceOf(p.bal, sender, c.base) - amount
            && BalanceOf(t.bal, pool, c.base) == base + amount
            && BalanceOf(t.bal, sender, ticker)
               == BalanceOf(p.bal, sender, ticker) + if t.received <= tokens then t.received else 0)
  {
    var clp, pool := p.clps[ticker], NewCLPAddress(ticker);
    var base := BalanceOf(p.bal, pool, c.base);
    assert c.emission(clp, base, amount, true) == RunFormula100(clp.currentSupply, amount, base);
    FormulaWithin(clp.currentSupply, amount, base, BalanceOf(p.bal, pool, ticker));
    DirectTrade(c, p, sender, c.base, ticker, amount, sender, c.base);
    DirectTrade(c, p, sender, c.base, ticker, amount, pool, c.base);
    DirectTrade(c, p, sender, c.base, ticker, amount, sender, ticker);
  }

  /** Buying from a ratio-100 pool and selling everything back: the tokens are back where they were, and the sender
      ends with more base coins than before exactly when rounding and the unchanged supply price the sale above the
      purchase and the pool can still pay it. */
  lemma RoundTrip(c: Config, p: Pools, sender: Addr, ticker: Denom, amount: nat)
    requires ExactAt100(c) && PoolsWellFormed(c, p.clps)
    requires ticker in p.clps && p.clps[ticker].reserveRatio == 100 && sender != NewCLPAddress(ticker)
    requires BalanceOf(p.bal, NewCLPAddress(ticker), c.base) > 0
    requires var t := Traded(c, p, sender, c.base, ticker, amount);
      t.refusal.None? && 0 < t.received <= BalanceOf(p.bal, NewCLPAddress(ticker), ticker)
    ensures var supply, base := p.clps[ticker].currentSupply, BalanceOf(p.bal, NewCLPAddress(ticker), c.base);
      var tokens := RunFormula100(supply, amount, base);
      var q := p.(bal := Traded(c, p, sender, c.base, ticker, amount).bal);
      var sold := Traded(c, q, sender, ticker, c.base, tokens);
      && sold.refusal.None? && sold.received == RunFormula100(base + amount, tokens, supply)
      && BalanceOf(sold.bal, sender, ticker) == BalanceOf(p.bal, sender, ticker)
      && (sold.received > amount <==> 2 * (base + amount) * tokens >= (2 * amount + 1) * supply)
      && BalanceOf(sold.bal, sender, c.base)
         == BalanceOf(p.bal, sender, c.base) - amount + (if sold.received <= base + amount then sold.received else 0)
      && (BalanceOf(sold.bal, sender, c.base) > BalanceOf(p.bal, sender, c.base) <==>
            (2 * amount + 1) * supply <= 2 * (base + amount) * tokens < (2 * (base + amount) + 1) * supply)
  {
    var supply, base := p.clps[ticker].currentSupply, BalanceOf(p.bal, NewCLPAddress(ticker), c.base);
    var bought := Traded(c, p, sender, c.base, ticker, amount);
    BuyIsPaid(c, p, sender, ticker, amount);
    SaleIsPaid(c, p.(bal := bought.bal), sender, ticker, bought.received);
    FormulaWithin(base + amount, bought.received, supply, amount);
  }

  // ---- uncovered emissions ----

  const THIN_T := CreateMsg("s", "T", "", 0, 100, 1, 1)
  const THIN_U := CreateMsg("s", "U", "", 0, 100, 1, 1)

  /** Two pools with one base coin each, created by an account that also owns ten genesis coins of the first token. */
  function ThinPools(c: Config): Pools {
    Created(c, Created(c, Pools(map[("s", "RUNE") := 30, ("s", "T") := 10], map[]), THIN_T), THIN_U)
  }

  lemma ThinPoolsCreated(c: Config)
    requires c.base == "RUNE"
    ensures var p := ThinPools(c);
      && PoolsWellFormed(c, p.clps) && p.clps == map["T" := NewCLP(THIN_T), "U" := NewCLP(THIN_U)]
      && BalanceOf(p.bal, "s", "RUNE") == 28 && BalanceOf(p.bal, "s", "T") == 10
      && BalanceOf(p.bal, NewCLPAddress("T"), "RUNE") == 1
      && BalanceOf(p.bal, NewCLPAddress("U"), "RUNE") == 1 && BalanceOf(p.bal, NewCLPAddress("U"), "U") == 1
  {
    var start := Pools(map[("s", "RUNE") := 30, ("s", "T") := 10], map[]);
    var p1 := Created(c, start, THIN_T);
    AddressInjective("T", "U");
    assert |NewCLPAddress("T")| == 10 && |NewCLPAddress("U")| == 10;
    assert CreateRefusal(c, start, THIN_T).None?;
    assert CreateRefusal(c, p1, THIN_U).None?;
  }

  /** A seller can give up coins for nothing: the pool owns less than it emits, and the trade is not refused. */
  lemma UnpaidSale(c: Config)
    requires ExactAt100(c) && c.base == "RUNE"
    ensures var p := ThinPools(c);
      var t := Traded(c, p, "s", "T", "RUNE", 10);
      && t.refusal.None? && t.received == 10
      && BalanceOf(t.bal, "s", "RUNE") == BalanceOf(p.bal, "s", "RUNE")
      && BalanceOf(t.bal, "s", "T") == BalanceOf(p.bal, "s", "T") - 10
  {
    ThinPoolsCreated(c);
    assert |NewCLPAddress("T")| == 10;
    SaleIsPaid(c, ThinPools(c), "s", "T", 10);
  }

  /** A buyer can pay for nothing as well. */
  lemma UnpaidPurchase(c: Config)
    requires ExactAt100(c) && c.base == "RUNE"
    ensures var p := ThinPools(c);
      var t := Traded(c, p, "s", "RUNE", "U", 10);
      && t.refusal.None? && t.received == 10
      && BalanceOf(t.bal, "s", "RUNE") == BalanceOf(p.bal, "s", "RUNE") - 10
      && BalanceOf(t.bal, "s", "U") == BalanceOf(p.bal, "s", "U")
  {
    ThinPoolsCreated(c);
    assert |NewCLPAddress("U")| == 10;
    BuyIsPaid(c, ThinPools(c), "s", "U", 10);
  }

  /** A bridged trade can charge its sender base coins: the first pool pays nothing, and the second leg still takes
      the emission from the sender's own coins. */
  lemma UncoveredBridge(c: Config)
    requires ExactAt100(c) && c.base == "RUNE"
    ensures var p := ThinPools(c);
      var t := Traded(c, p, "s", "T", "U", 10);
      && t.refusal.None?
      && BalanceOf(p.bal, "s", "RUNE") == 28 && BalanceOf(t.bal, "s", "RUNE") == 18
  {
    ThinPoolsCreated(c);
    UnpaidSale(c);
    var p := ThinPools(c);
    AddressInjective("T", "U");
    assert |NewCLPAddress("T")| == 10 && |NewCLPAddress("U")| == 10;
    var leg1 := ProcessTrade(c, p, "s", "T", 10, false);
    LegBase(c, p, "s", "T", 10, false);
    LegBase(c, p.(bal := leg1.bal), "s", "U", leg1.emitted, true);
  }

  // ---- a profitable round trip ----

  const DEEP_T := CreateMsg("s", "T", "", 0, 100, 100, 100)

  function DeepPool(c: Config): Pools {
    Created(c, Pools(map[("s", "RUNE") := 150], map[]), DEEP_T)
  }

  lemma DeepPoolCreated(c: Config)
    requires c.base == "RUNE"
    ensures var p := DeepPool(c);
      && PoolsWellFormed(c, p.clps) && p.clps == map["T" := NewCLP(DEEP_T)]
      && BalanceOf(p.bal, "s", "RUNE") == 50
      && BalanceOf(p.bal, NewCLPAddress("T"), "RUNE") == 100 && BalanceOf(p.bal, NewCLPAddress("T"), "T") == 100
  {
    assert |NewCLPAddress("T")| == 10;
    assert CreateRefusal(c, Pools(map[("s", "RUNE") := 150], map[]), DEEP_T).None?;
  }

  /** With a supply of 100 and 100 base coins in the pool, 50 base coins buy 50 tokens, which sell for 75. */
  lemma FiftyForSeventyFive(c: Config, p: Pools, sender: Addr, ticker: Denom)
    requires ExactAt100(c) && PoolsWellFormed(c, p.clps) && ticker in p.clps && ticker != c.base
    requires p.clps[ticker].reserveRatio == 100 && p.clps[ticker].currentSupply == 100
    requires ticker != "" && sender != NewCLPAddress(ticker) && BalanceOf(p.bal, sender, c.base) >= 50
    requires BalanceOf(p.bal, NewCLPAddress(ticker), c.base) == 100
    requires BalanceOf(p.bal, NewCLPAddress(ticker), ticker) == 100
    ensures var bought := Traded(c, p, sender, c.base, ticker, 50);
      var sold := Traded(c, p.(bal := bought.bal), sender, ticker, c.base, 50);
      && bought.refusal.None? && bought.received == 50 && sold.refusal.None? && sold.received == 75
      && BalanceOf(sold.bal, sender, ticker) == BalanceOf(p.bal, sender, ticker)
      && BalanceOf(sold.bal, sender, c.base) == BalanceOf(p.bal, sender, c.base) + 25
  {
    TradeRefuses(c, p, sender, c.base, ticker, 50);
    BuyIsPaid(c, p, sender, ticker, 50);
    RoundTrip(c, p, sender, ticker, 50);
  }

  lemma RoundTripGains(c: Config)
    requires ExactAt100(c) && c.base == "RUNE"
    ensures var p := DeepPool(c);
      var bought := Traded(c, p, "s", "RUNE", "T", 50);
      var sold := Traded(c, p.(bal := bought.bal), "s", "T", "RUNE", 50);
      && bought.refusal.None? && bought.received == 50 && sold.refusal.None? && sold.received == 75
      && BalanceOf(sold.bal, "s", "T") == BalanceOf(p.bal, "s", "T")
      && BalanceOf(sold.bal, "s", "RUNE") == BalanceOf(p.bal, "s", "RUNE") + 25
  {
    DeepPoolCreated(c);
    assert |NewCLPAddress("T")| == 10;
    FiftyForSeventyFive(c, DeepPool(c), "s", "T");
  }
}
