/** Sums over the rows of a table and over the trades of the archive. */
module Sums {
  import opened Market

  ghost function Sum<V>(m: map<int, V>, f: V -> real): real
    decreases |m|
  {
    if exists k :: k in m then
      var k :| k in m;
      f(m[k]) + Sum(m - {k}, f)
    else 0.0
  }

  /** Any row may be taken out first. */
  lemma {:induction false} SumTakeOut<V>(m: map<int, V>, k: int, f: V -> real)
    requires k in m
    ensures Sum(m, f) == f(m[k]) + Sum(m - {k}, f)
    decreases |m|
  {
    var j :| j in m && Sum(m, f) == f(m[j]) + Sum(m - {j}, f);
    if j != k {
      SumTakeOut(m - {j}, k, f);
      SumTakeOut(m - {k}, j, f);
      assert m - {j} - {k} == m - {k} - {j};
    }
  }

  /** How a sum changes when one row is written. */
  lemma SumWrite<V>(m: map<int, V>, k: int, v: V, f: V -> real)
    ensures Sum(m[k := v], f) == Sum(m, f) + f(v) - if k in m then f(m[k]) else 0.0
  {
    SumTakeOut(m[k := v], k, f);
    if k in m {
      SumTakeOut(m, k, f);
      assert m[k := v] - {k} == m - {k};
    } else {
      assert m[k := v] - {k} == m;
    }
  }

  /** A measure that is zero on every row. */
  lemma {:induction false} SumOfNothing<V>(m: map<int, V>, f: V -> real)
    requires forall k | k in m :: f(m[k]) == 0.0
    ensures Sum(m, f) == 0.0
    decreases |m|
  {
    if k :| k in m {
      SumTakeOut(m, k, f);
      SumOfNothing(m - {k}, f);
    }
  }

  /** Two measures that agree on every row. */
  lemma {:induction false} SumSame<V>(m: map<int, V>, f: V -> real, g: V -> real)
    requires forall k | k in m :: f(m[k]) == g(m[k])
    ensures Sum(m, f) == Sum(m, g)
    decreases |m|
  {
    if k :| k in m {
      SumTakeOut(m, k, f);
      SumTakeOut(m, k, g);
      SumSame(m - {k}, f, g);
    }
  }

  /** Sums the trades of an archive, whose rows come in pairs: the resting row, then the taker's. */
  ghost function TradeSum(archives: seq<Order>, f: (Order, Order) -> real): real
    decreases |archives|
  {
    if |archives| < 2 then 0.0
    else
      var k := |archives| - 2;
      TradeSum(archives[..k], f) + f(archives[k], archives[k + 1])
  }

  lemma TradeSumAppend(archives: seq<Order>, resting: Order, taker: Order, f: (Order, Order) -> real)
    ensures TradeSum(archives + [resting, taker], f) == TradeSum(archives, f) + f(resting, taker)
  {
    assert (archives + [resting, taker])[..|archives|] == archives;
  }

  // ---------- How the sums move with the three changes the commands make ----------

  /** How a sum changes when `n` units of a row are filled. */
  lemma FillSum(orders: map<int, Order>, id: int, n: int, g: Order -> real)
    requires id in orders
    ensures var row := orders[id];
            Sum(Fill(orders, id, n), g)
            == Sum(orders, g) - g(row) + (if n == row.quantity then 0.0 else g(row.(quantity := row.quantity - n)))
  {
    SumTakeOut(orders, id, g);
    SumWrite(orders, id, orders[id].(quantity := orders[id].quantity - n), g);
  }

  /** A trade rewrites two users and one order and archives one pair. */
  lemma SettleSums(t: Tables, ord: Order, id: int, stamp: int,
                   f: User -> real, g: Order -> real, h: (Order, Order) -> real)
    requires ord.owner in t.users && Eligible(t.orders, ord, id) && t.orders[id].owner in t.users
    ensures var t', row := Settle(t, ord, id, stamp), t.orders[id];
            var n := Volume(row, ord);
            && Sum(t'.users, f) == Sum(t.users, f)
                 - f(t.users[ord.owner]) + f(TakerLeg(t.users[ord.owner], ord, row, n))
                 - f(t.users[row.owner]) + f(MakerLeg(t.users[row.owner], ord, row, n))
            && Sum(t'.orders, g) == Sum(t.orders, g) - g(row)
                 + (if n == row.quantity then 0.0 else g(row.(quantity := row.quantity - n)))
            && TradeSum(t'.archives, h) == TradeSum(t.archives, h) + h(row, ord.(createdAt := stamp))
  {
    var row := t.orders[id];
    var n := Volume(row, ord);
    var u := TakerLeg(t.users[ord.owner], ord, row, n);
    SumWrite(t.users, ord.owner, u, f);
    SumWrite(t.users[ord.owner := u], row.owner, MakerLeg(t.users[row.owner], ord, row, n), f);
    FillSum(t.orders, id, n, g);
    TradeSumAppend(t.archives, row, ord.(createdAt := stamp), h);
  }

  lemma RestSums(t: Tables, ord: Order, posted: int, f: User -> real, g: Order -> real)
    requires TableInv(t) && ord.owner in t.users
    ensures var t' := Rest(t, ord, posted);
            && Sum(t'.users, f) == Sum(t.users, f) - f(t.users[ord.owner]) + f(t.users[ord.owner].Reserve(ord))
            && Sum(t'.orders, g) == Sum(t.orders, g) + g(ord.(createdAt := posted))
  {
    assert t.nextOrderId !in t.orders;
    SumWrite(t.users, ord.owner, t.users[ord.owner].Reserve(ord), f);
    SumWrite(t.orders, t.nextOrderId, ord.(createdAt := posted), g);
  }

  lemma CancelSums(t: Tables, id: int, f: User -> real, g: Order -> real)
    requires TableInv(t) && id in t.orders
    ensures var row := t.orders[id];
            && row.owner in t.users
            && var t' := Cancel(t, id, row.owner).0;
            && Sum(t'.users, f) == Sum(t.users, f) - f(t.users[row.owner]) + f(t.users[row.owner].Refund(row))
            && Sum(t'.orders, g) == Sum(t.orders, g) - g(row)
  {
    assert RowOk(t, id);
    var row := t.orders[id];
    SumWrite(t.users, row.owner, t.users[row.owner].Refund(row), f);
    SumTakeOut(t.orders, id, g);
  }

  lemma RegisterSums(t: Tables, balances: User, f: User -> real)
    requires TableInv(t)
    ensures Sum(Register(t, balances).users, f) == Sum(t.users, f) + f(balances)
  {
    SumWrite(t.users, t.nextUserId, balances, f);
  }
}
