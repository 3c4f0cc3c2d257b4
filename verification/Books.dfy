/** Order books: store keys, price-time order, insertion and cleanup. */
module Books {
  import opened Seqs
  import opened Bank
  import opened Orders

  /** An order book as it is written to the store. */
  datatype BookRecord = BookRecord(
    key: string, kind: OrderKind, amountDenom: Denom, priceDenom: Denom, orders: seq<LimitOrder>)

  // ---- store keys ----

  const ORDER_BOOK_SUBSPACE := "orderBook:"
  const KEY_NEXT_ORDER_ID := "nextOrderID"

  function KindDigit(kind: OrderKind): string
    requires !kind.UnknownKind?
  {
    if kind == BuyOrder then "1" else "2"
  }

  function MakeKeyOrderBook(kind: OrderKind, amountDenom: Denom, priceDenom: Denom): string
    requires !kind.UnknownKind?
  {
    ORDER_BOOK_SUBSPACE + KindDigit(kind) + ":" + amountDenom + ":" + priceDenom
  }

  predicate ColonFree(d: Denom) {
    ':' !in d
  }

  /** Every book key lies in the iterated subspace and none is the key of the order counter. */
  lemma KeyInSubspace(kind: OrderKind, amountDenom: Denom, priceDenom: Denom)
    requires !kind.UnknownKind?
    ensures ORDER_BOOK_SUBSPACE <= MakeKeyOrderBook(kind, amountDenom, priceDenom)
    ensures MakeKeyOrderBook(kind, amountDenom, priceDenom) != KEY_NEXT_ORDER_ID
  {
    assert MakeKeyOrderBook(kind, amountDenom, priceDenom)[0] == 'o';
    assert KEY_NEXT_ORDER_ID[0] == 'n';
  }

  /** The kind is always recoverable from a key, whatever the denominations. */
  lemma KeyFixesKind(k1: OrderKind, a1: Denom, p1: Denom, k2: OrderKind, a2: Denom, p2: Denom)
    requires !k1.UnknownKind? && !k2.UnknownKind?
    requires MakeKeyOrderBook(k1, a1, p1) == MakeKeyOrderBook(k2, a2, p2)
    ensures k1 == k2 && a1 + ":" + p1 == a2 + ":" + p2
  {
    var s1, s2 := MakeKeyOrderBook(k1, a1, p1), MakeKeyOrderBook(k2, a2, p2);
    assert s1[10] == KindDigit(k1)[0] && s2[10] == KindDigit(k2)[0];
    assert s1[12..] == a1 + ":" + p1;
    assert s2[12..] == a2 + ":" + p2;
  }

  lemma FirstColon(a: Denom, p: Denom)
    requires ColonFree(a)
    ensures var s := a + ":" + p;
      s[|a|] == ':' && forall i :: 0 <= i < |a| ==> s[i] != ':'
  {
  }

  /** With colon-free denominations a key determines its market. */
  lemma KeyInjective(k1: OrderKind, a1: Denom, p1: Denom, k2: OrderKind, a2: Denom, p2: Denom)
    requires !k1.UnknownKind? && !k2.UnknownKind?
    requires ColonFree(a1) && ColonFree(a2) && ColonFree(p1) && ColonFree(p2)
    ensures MakeKeyOrderBook(k1, a1, p1) == MakeKeyOrderBook(k2, a2, p2) <==> k1 == k2 && a1 == a2 && p1 == p2
  {
    if MakeKeyOrderBook(k1, a1, p1) == MakeKeyOrderBook(k2, a2, p2) {
      KeyFixesKind(k1, a1, p1, k2, a2, p2);
      var s1, s2 := a1 + ":" + p1, a2 + ":" + p2;
      FirstColon(a1, p1);
      FirstColon(a2, p2);
      assert |a1| == |a2|;
      assert a1 == s1[..|a1|] && a2 == s2[..|a2|];
      assert p1 == s1[|a1| + 1..] && p2 == s2[|a2| + 1..];
    }
  }

  /** With colons two markets can share a key. */
  lemma KeyCollides()
    ensures MakeKeyOrderBook(SellOrder, "y:x", "RUNE") == MakeKeyOrderBook(SellOrder, "y", "x:RUNE")
  {
    var s1, s2 := MakeKeyOrderBook(SellOrder, "y:x", "RUNE"), MakeKeyOrderBook(SellOrder, "y", "x:RUNE");
    assert s1 == "orderBook:2:y:x:RUNE";
    assert s2 == "orderBook:2:y:x:RUNE";
  }

  // ---- price-time order ----

  /** A new order at `p` goes before a stored order at `q`: buy books list the highest price first, sell books the
      lowest. */
  predicate ShouldInsertBefore(kind: OrderKind, p: int, q: int) {
    if kind == BuyOrder then !(q >= p) else !(p >= q)
  }

  /** `x` has priority over `y`: a strictly better price, or the same price and an earlier number. */
  predicate Precedes(kind: OrderKind, x: LimitOrder, y: LimitOrder) {
    || ShouldInsertBefore(kind, x.price.amount, y.price.amount)
    || (x.price.amount == y.price.amount && x.orderID < y.orderID)
  }

  ghost predicate InPriority(kind: OrderKind, orders: seq<LimitOrder>) {
    orders != [] ==>
      && (forall o :: o in orders[1..] ==> Precedes(kind, orders[0], o))
      && InPriority(kind, orders[1..])
  }

  /** Priority read off positions. */
  lemma {:induction false} InPriorityAt(kind: OrderKind, orders: seq<LimitOrder>, i: nat, j: nat)
    requires InPriority(kind, orders) && i < j < |orders|
    ensures Precedes(kind, orders[i], orders[j])
  {
    if i == 0 {
      assert orders[j] == orders[1..][j - 1];
    } else {
      InPriorityAt(kind, orders[1..], i - 1, j - 1);
    }
  }

  lemma {:induction false} SuffixInPriority(kind: OrderKind, orders: seq<LimitOrder>, k: nat)
    requires InPriority(kind, orders) && k <= |orders|
    ensures InPriority(kind, orders[k..])
  {
    if k > 0 {
      SuffixInPriority(kind, orders[1..], k - 1);
      assert orders[1..][k - 1..] == orders[k..];
    } else {
      assert orders[0..] == orders;
    }
  }

  // ---- insertion ----

  function InsertPos(kind: OrderKind, orders: seq<LimitOrder>, price: int): (p: nat)
    ensures p <= |orders|
  {
    if orders == [] || ShouldInsertBefore(kind, price, orders[0].price.amount) then 0
    else 1 + InsertPos(kind, orders[1..], price)
  }

  function Insert(kind: OrderKind, orders: seq<LimitOrder>, o: LimitOrder): seq<LimitOrder> {
    if orders == [] || ShouldInsertBefore(kind, o.price.amount, orders[0].price.amount) then [o] + orders
    else [orders[0]] + Insert(kind, orders[1..], o)
  }

  /** The insertion point is the first position whose price is strictly worse. */
  lemma {:induction false} InsertPosFirst(kind: OrderKind, orders: seq<LimitOrder>, price: int)
    ensures var p := InsertPos(kind, orders, price);
      && (forall i :: 0 <= i < p ==> !ShouldInsertBefore(kind, price, orders[i].price.amount))
      && (p < |orders| ==> ShouldInsertBefore(kind, price, orders[p].price.amount))
  {
    if orders != [] && !ShouldInsertBefore(kind, price, orders[0].price.amount) {
      InsertPosFirst(kind, orders[1..], price);
      var p := InsertPos(kind, orders, price);
      forall i | 0 <= i < p
        ensures !ShouldInsertBefore(kind, price, orders[i].price.amount)
      {
        if i > 0 {
          assert orders[i] == orders[1..][i - 1];
        }
      }
    }
  }

  lemma {:induction false} InsertSplits(kind: OrderKind, orders: seq<LimitOrder>, o: LimitOrder)
    ensures var p := InsertPos(kind, orders, o.price.amount);
      Insert(kind, orders, o) == orders[..p] + [o] + orders[p..]
  {
    if orders != [] && !ShouldInsertBefore(kind, o.price.amount, orders[0].price.amount) {
      InsertSplits(kind, orders[1..], o);
      var q := InsertPos(kind, orders[1..], o.price.amount);
      assert orders[..q + 1] == [orders[0]] + orders[1..][..q];
      assert orders[q + 1..] == orders[1..][q..];
    }
  }

  /** Stable sorted insertion: the old orders keep their relative order, the new one follows every price
      that is at least as good and precedes every strictly worse price, and nothing else changes. */
  lemma InsertIsStable(kind: OrderKind, orders: seq<LimitOrder>, o: LimitOrder) returns (p: nat)
    requires InPriority(kind, orders)
    ensures p <= |orders|
    ensures Insert(kind, orders, o) == orders[..p] + [o] + orders[p..]
    ensures multiset(Insert(kind, orders, o)) == multiset(orders) + multiset{o}
    ensures forall i :: 0 <= i < |orders| ==>
              (i >= p <==> ShouldInsertBefore(kind, o.price.amount, orders[i].price.amount))
  {
    p := InsertPos(kind, orders, o.price.amount);
    InsertPosFirst(kind, orders, o.price.amount);
    forall i | p < i < |orders|
      ensures ShouldInsertBefore(kind, o.price.amount, orders[i].price.amount)
    {
      InPriorityAt(kind, orders, p, i);
    }
    InsertSplits(kind, orders, o);
    InsertPermutes(kind, orders, o);
  }

  lemma {:induction false} InsertPermutes(kind: OrderKind, orders: seq<LimitOrder>, o: LimitOrder)
    ensures multiset(Insert(kind, orders, o)) == multiset(orders) + multiset{o}
  {
    if orders != [] && !ShouldInsertBefore(kind, o.price.amount, orders[0].price.amount) {
      InsertPermutes(kind, orders[1..], o);
      assert orders == [orders[0]] + orders[1..];
    }
  }

  lemma {:induction false} InsertMembers(kind: OrderKind, orders: seq<LimitOrder>, o: LimitOrder)
    ensures forall x :: x in Insert(kind, orders, o) <==> x in orders || x == o
  {
    if orders != [] && !ShouldInsertBefore(kind, o.price.amount, orders[0].price.amount) {
      InsertMembers(kind, orders[1..], o);
      assert orders == [orders[0]] + orders[1..];
    }
  }

  /** Inserting the youngest order keeps price-time priority. */
  lemma {:induction false} InsertKeepsPriority(kind: OrderKind, orders: seq<LimitOrder>, o: LimitOrder)
    requires InPriority(kind, orders)
    requires forall x :: x in orders ==> x.orderID < o.orderID
    ensures InPriority(kind, Insert(kind, orders, o))
  {
    var r := Insert(kind, orders, o);
    if orders == [] {
      assert r == [o];
    } else if ShouldInsertBefore(kind, o.price.amount, orders[0].price.amount) {
      assert r[1..] == orders;
      forall x | x in orders
        ensures Precedes(kind, o, x)
      {
        assert x == orders[0] || x in orders[1..];
      }
    } else {
      InsertKeepsPriority(kind, orders[1..], o);
      InsertMembers(kind, orders[1..], o);
      assert r[1..] == Insert(kind, orders[1..], o);
      assert orders[0] in orders;
    }
  }

  lemma {:induction false} SumInsert(w: Weight, kind: OrderKind, orders: seq<LimitOrder>, o: LimitOrder)
    ensures SumOrders(w, Insert(kind, orders, o)) == SumOrders(w, orders) + WeightOf(w, o)
  {
    var r := Insert(kind, orders, o);
    if orders == [] || ShouldInsertBefore(kind, o.price.amount, orders[0].price.amount) {
      assert r[1..] == orders;
    } else {
      SumInsert(w, kind, orders[1..], o);
      assert r[1..] == Insert(kind, orders[1..], o);
    }
  }

  /** Two orders at the same price, inserted one after the other, stand side by side where one would stand. */
  lemma {:induction false} InsertTwice(kind: OrderKind, orders: seq<LimitOrder>, o1: LimitOrder, o2: LimitOrder)
    requires o1.price == o2.price
    ensures var p := InsertPos(kind, orders, o1.price.amount);
      Insert(kind, Insert(kind, orders, o1), o2) == orders[..p] + [o1, o2] + orders[p..]
  {
    var r := Insert(kind, orders, o1);
    if orders == [] || ShouldInsertBefore(kind, o1.price.amount, orders[0].price.amount) {
      ConsTail(o1, orders);
      assert Insert(kind, r, o2) == [o1] + ([o2] + orders);
    } else {
      InsertTwice(kind, orders[1..], o1, o2);
      ConsTail(orders[0], Insert(kind, orders[1..], o1));
      var q := InsertPos(kind, orders[1..], o1.price.amount);
      assert orders[..q + 1] == [orders[0]] + orders[1..][..q];
      assert orders[q + 1..] == orders[1..][q..];
    }
  }

  lemma SplicedAt(orders: seq<LimitOrder>, p: nat, o: LimitOrder, r: seq<LimitOrder>)
    requires p <= |orders| && |r| == |orders| + 1 && r[p] == o
    requires forall j :: 0 <= j < p ==> r[j] == orders[j]
    requires forall j :: p < j <= |orders| ==> r[j] == orders[j - 1]
    ensures r == orders[..p] + [o] + orders[p..]
  {
  }

  // ---- cleanup ----

  function StillOpen(orders: seq<LimitOrder>): seq<LimitOrder> {
    if orders == [] then []
    else if orders[0].amount.amount == 0 then StillOpen(orders[1..])
    else [orders[0]] + StillOpen(orders[1..])
  }

  lemma {:induction false} StillOpenConcat(s: seq<LimitOrder>, t: seq<LimitOrder>)
    ensures StillOpen(s + t) == StillOpen(s) + StillOpen(t)
  {
    if s == [] {
      assert s + t == t;
    } else {
      StillOpenConcat(s[1..], t);
      ConcatTail(s, t);
      ConcatAssoc([s[0]], StillOpen(s[1..]), StillOpen(t));
    }
  }

  lemma {:induction false} StillOpenKeepsPositive(orders: seq<LimitOrder>)
    requires forall o :: o in orders ==> Positive(o)
    ensures StillOpen(orders) == orders
  {
    if orders != [] {
      assert orders[0] in orders;
      HeadTail(orders);
      StillOpenKeepsPositive(orders[1..]);
      assert orders == [orders[0]] + orders[1..];
    }
  }

  /** Cleanup drops the orders with nothing left and no others. */
  lemma {:induction false} StillOpenMembers(orders: seq<LimitOrder>)
    ensures forall o :: o in StillOpen(orders) <==> o in orders && o.amount.amount != 0
    ensures multiset(StillOpen(orders)) <= multiset(orders)
  {
    if orders != [] {
      StillOpenMembers(orders[1..]);
      assert orders == [orders[0]] + orders[1..];
    }
  }

  // ---- the working copy that the keeper edits ----

  class OrderBook {
    const key: string
    const kind: OrderKind
    const amountDenom: Denom
    const priceDenom: Denom
    var orders: seq<LimitOrder>

    constructor (r: BookRecord)
      ensures Record() == r
    {
      key, kind, amountDenom, priceDenom, orders := r.key, r.kind, r.amountDenom, r.priceDenom, r.orders;
    }

    function Record(): BookRecord
      reads this
    {
      BookRecord(key, kind, amountDenom, priceDenom, orders)
    }

    method AddLimitOrder(o: LimitOrder) returns (ok: bool)
      modifies this
      ensures ok <==> amountDenom == o.amount.denom && priceDenom == o.price.denom && kind == o.kind
      ensures orders == if ok then Insert(kind, old(orders), o) else old(orders)
    {
      if amountDenom != o.amount.denom { return false; }
      if priceDenom != o.price.denom { return false; }
      if kind != o.kind { return false; }
      if |orders| == 0 {
        orders := [o];
        return true;
      }
      ghost var p := InsertPos(kind, orders, o.price.amount);
      InsertPosFirst(kind, orders, o.price.amount);
      var newOrders := new LimitOrder[|orders| + 1](_ => o);
      var added := false;
      for i := 0 to |orders|
        invariant added <==> i > p
        invariant orders == old(orders)
        invariant forall j :: 0 <= j < Min(i, p) ==> newOrders[j] == orders[j]
        invariant added ==> newOrders[p] == o
        invariant added ==> forall j :: p < j <= i ==> newOrders[j] == orders[j - 1]
      {
        if added {
          newOrders[i + 1] := orders[i];
        } else if ShouldInsertBefore(kind, o.price.amount, orders[i].price.amount) {
          newOrders[i] := o;
          added := true;
          newOrders[i + 1] := orders[i];
        } else {
          newOrders[i] := orders[i];
        }
      }
      if !added {
        newOrders[|orders|] := o;
      }
      InsertSplits(kind, orders, o);
      SplicedAt(orders, p, o, newOrders[..]);
      orders := newOrders[..];
      ok := true;
    }

    method RemoveFilledLimitOrders()
      modifies this
      ensures orders == StillOpen(old(orders))
      ensures forall o :: o in orders <==> o in old(orders) && o.amount.amount != 0
    {
      StillOpenMembers(orders);
      var newOrders := [];
      for i := 0 to |orders|
        invariant newOrders + StillOpen(orders[i..]) == StillOpen(orders)
        invariant orders == old(orders)
      {
        if orders[i].amount.amount != 0 {
          newOrders := newOrders + [orders[i]];
        }
      }
      orders := newOrders;
    }
  }
}
