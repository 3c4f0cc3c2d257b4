/** The coin ledger shared by every keeper: accounts, denominations and the bank operations the keepers call. */
module Bank {
  import opened MapSums

  type Addr = string
  type Denom = string
  datatype Coin = Coin(denom: Denom, amount: int)

  /** A missing entry is a zero balance. */
  type Balances = map<(Addr, Denom), nat>

  function BalanceOf(b: Balances, a: Addr, d: Denom): nat {
    if (a, d) in b then b[(a, d)] else 0
  }

  predicate Covers(b: Balances, a: Addr, c: Coin) {
    BalanceOf(b, a, c.denom) >= c.amount
  }

  function Credited(b: Balances, a: Addr, c: Coin): Balances
    requires c.amount >= 0
  {
    b[(a, c.denom) := BalanceOf(b, a, c.denom) + c.amount]
  }

  function Debited(b: Balances, a: Addr, c: Coin): Balances
    requires Covers(b, a, c) && c.amount >= 0
  {
    b[(a, c.denom) := BalanceOf(b, a, c.denom) - c.amount]
  }

  /** A send whose failure is ignored: it moves the coins when they are there and does nothing otherwise. */
  function SentIfCovered(b: Balances, from: Addr, to: Addr, c: Coin): Balances
    requires c.amount >= 0
  {
    if Covers(b, from, c) then Credited(Debited(b, from, c), to, c) else b
  }

  /** The part of coin `c` that is denominated in `d`. */
  function In(c: Coin, d: Denom): int {
    if c.denom == d then c.amount else 0
  }

  ghost function Holding(d: Denom): ((Addr, Denom), nat) -> int {
    (k: (Addr, Denom), v: nat) => if k.1 == d then v else 0
  }

  /** All coins of denomination `d` held in accounts. */
  ghost function Total(b: Balances, d: Denom): int {
    MapSum<(Addr, Denom), nat>(b, Holding(d))
  }

  lemma TotalCredited(b: Balances, a: Addr, c: Coin, d: Denom)
    requires c.amount >= 0
    ensures Total(Credited(b, a, c), d) == Total(b, d) + In(c, d)
  {
    MapSumPut<(Addr, Denom), nat>(b, Holding(d), (a, c.denom), BalanceOf(b, a, c.denom) + c.amount);
  }

  lemma TotalDebited(b: Balances, a: Addr, c: Coin, d: Denom)
    requires Covers(b, a, c) && c.amount >= 0
    ensures Total(Debited(b, a, c), d) == Total(b, d) - In(c, d)
  {
    MapSumPut<(Addr, Denom), nat>(b, Holding(d), (a, c.denom), BalanceOf(b, a, c.denom) - c.amount);
  }

  lemma TotalSent(b: Balances, from: Addr, to: Addr, c: Coin, d: Denom)
    requires c.amount >= 0
    ensures Total(SentIfCovered(b, from, to, c), d) == Total(b, d)
  {
    if Covers(b, from, c) {
      TotalDebited(b, from, c, d);
      TotalCredited(Debited(b, from, c), to, c, d);
    }
  }

  /** A send changes the balances of its two accounts in its own denomination, and cancels out within one account. */
  lemma SentBalance(b: Balances, from: Addr, to: Addr, c: Coin, a: Addr, d: Denom)
    requires c.amount >= 0
    ensures var moved := if Covers(b, from, c) then In(c, d) else 0;
      BalanceOf(SentIfCovered(b, from, to, c), a, d)
      == BalanceOf(b, a, d) - (if a == from then moved else 0) + (if a == to then moved else 0)
  {
  }

  lemma BalanceWithinTotal(b: Balances, a: Addr, d: Denom)
    ensures BalanceOf(b, a, d) <= Total(b, d)
  {
    MapSumBound<(Addr, Denom), nat>(b, Holding(d));
    if (a, d) in b {
      assert Holding(d)((a, d), b[(a, d)]) <= Total(b, d);
    }
  }

  class Ledger {
    var balances: Balances

    constructor (initial: Balances)
      ensures balances == initial
    {
      balances := initial;
    }

    method HasCoins(a: Addr, c: Coin) returns (ok: bool)
      ensures ok <==> c.amount <= BalanceOf(balances, a, c.denom)
    {
      ok := BalanceOf(balances, a, c.denom) >= c.amount;
    }

    method SubtractCoins(a: Addr, c: Coin) returns (ok: bool)
      requires c.amount >= 0
      modifies this
      ensures ok <==> c.amount <= old(BalanceOf(balances, a, c.denom))
      ensures balances == if ok then Debited(old(balances), a, c) else old(balances)
    {
      ok := HasCoins(a, c);
      if ok {
        balances := balances[(a, c.denom) := BalanceOf(balances, a, c.denom) - c.amount];
      }
    }

    method AddCoins(a: Addr, c: Coin) returns (ok: bool)
      requires c.amount >= 0
      modifies this
      ensures ok
      ensures balances == Credited(old(balances), a, c)
    {
      balances := balances[(a, c.denom) := BalanceOf(balances, a, c.denom) + c.amount];
      ok := true;
    }

    method SendCoins(from: Addr, to: Addr, c: Coin) returns (ok: bool)
      requires c.amount >= 0
      modifies this
      ensures ok <==> c.amount <= old(BalanceOf(balances, from, c.denom))
      ensures balances == SentIfCovered(old(balances), from, to, c)
    {
      ok := SubtractCoins(from, c);
      if ok {
        ok := AddCoins(to, c);
      }
    }
  }
}
