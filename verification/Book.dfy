/** The life of a resting order over serial runs: filled, cancelled or still open, and in which turn. */
module Book {
  import opened Rounding
  import opened Market
  import opened Answers
  import opened Runs

  /** How much of order `id` this command fills. */
  ghost function FillOf(t: Tables, e: Event, id: int): int
    requires Inv(t) && Enabled(t, e)
  {
    if e.Submission? && e.pick == id && id != NO_MATCH && e.ord.owner in t.users && Funded(t.users[e.ord.owner], e.ord)
    then Volume(t.orders[id], e.ord)
    else 0
  }

  /** The owner of order `id` takes it back. */
  predicate Withdraws(t: Tables, e: Event, id: int) {
    id in t.orders && e == Cancellation(id, t.orders[id].owner)
  }

  ghost function Filled(t: Tables, es: seq<Event>, id: int): int
    requires ValidRun(t, es)
    decreases |es|
  {
    if es == [] then 0 else FillOf(t, es[0], id) + Filled(Step(t, es[0]), es[1..], id)
  }

  ghost predicate Withdrawn(t: Tables, es: seq<Event>, id: int)
    requires ValidRun(t, es)
    decreases |es|
  {
    es != [] && (Withdraws(t, es[0], id) || Withdrawn(Step(t, es[0]), es[1..], id))
  }

  // ---------- Lifetime ----------

  /** What one command does to an open order. */
  lemma StepOnOpenOrder(t: Tables, e: Event, id: int)
    requires Inv(t) && Enabled(t, e) && id in t.orders
    ensures var t', row, n := Step(t, e), t.orders[id], FillOf(t, e, id);
            && 0 <= n <= row.quantity
            && (id in t'.orders <==> n < row.quantity && !Withdraws(t, e, id))
            && (id in t'.orders ==> t'.orders[id] == row.(quantity := row.quantity - n))
            && (Withdraws(t, e, id) ==> n == 0)
  {
    assert RowOk(t, id);
    if e.Submission? && e.pick in t.orders {
      assert RowOk(t, e.pick);
    }
  }

  /** An ID that is used up is never used again. */
  lemma StepOnClosedOrder(t: Tables, e: Event, id: int)
    requires Inv(t) && Enabled(t, e) && id < t.nextOrderId && id !in t.orders
    ensures id !in Step(t, e).orders && id < Step(t, e).nextOrderId
    ensures FillOf(t, e, id) == 0 && !Withdraws(t, e, id)
  {
  }

  lemma {:induction false} ClosedStaysClosed(t: Tables, es: seq<Event>, id: int)
    requires Inv(t) && ValidRun(t, es) && id < t.nextOrderId && id !in t.orders
    ensures id !in After(t, es).orders
    ensures Filled(t, es, id) == 0 && !Withdrawn(t, es, id)
    decreases |es|
  {
    if es != [] {
      StepOnClosedOrder(t, es[0], id);
      StepKeepsInv(t, es[0]);
      ClosedStaysClosed(Step(t, es[0]), es[1..], id);
    }
  }

  /**
   * Filled plus remaining is what was posted; an order is never overfilled, leaves the book when it is
   * filled or its owner cancels it and for no other reason, and while open changes in nothing else.
   */
  lemma {:induction false} OrderLifetime(t: Tables, es: seq<Event>, id: int)
    requires Inv(t) && ValidRun(t, es) && id in t.orders
    ensures var t', row, n := After(t, es), t.orders[id], Filled(t, es, id);
            && 0 <= n <= row.quantity
            && (id in t'.orders <==> n < row.quantity && !Withdrawn(t, es, id))
            && (id in t'.orders ==> t'.orders[id] == row.(quantity := row.quantity - n))
            && (n == row.quantity ==> !Withdrawn(t, es, id))
    decreases |es|
  {
    assert RowOk(t, id);
    if es != [] {
      var t1 := Step(t, es[0]);
      StepOnOpenOrder(t, es[0], id);
      StepKeepsInv(t, es[0]);
      if id in t1.orders {
        OrderLifetime(t1, es[1..], id);
      } else {
        ClosedStaysClosed(t1, es[1..], id);
      }
    }
  }

  /** Where open orders come from: the unfilled part of a submission, under the next ID. */
  lemma PostedOrder(t: Tables, e: Event, id: int)
    requires Inv(t) && Enabled(t, e) && id !in t.orders && id in Step(t, e).orders
    ensures e.Submission? && id == t.nextOrderId
    ensures var row := Step(t, e).orders[id];
            && row == Order(e.ord.item, e.ord.side, row.quantity, e.ord.price, e.ord.owner, e.posted)
            && row.quantity == e.ord.quantity - FillOf(t, e, e.pick) > 0
  {
    if e.Submission? && e.pick in t.orders {
      assert RowOk(t, e.pick);
    }
  }

  // ---------- Time priority ----------

  /** One command never fills an order past an older one, on the same side of the same item, at least as favourable. */
  lemma StepRespectsTime(t: Tables, e: Event, a: int, b: int)
    requires Inv(t) && Enabled(t, e) && a in t.orders && b in t.orders
    requires t.orders[a].item == t.orders[b].item && t.orders[a].side == t.orders[b].side
    requires if t.orders[a].side == Sell then t.orders[a].price <= t.orders[b].price
             else t.orders[a].price >= t.orders[b].price
    requires t.orders[a].createdAt < t.orders[b].createdAt
    requires FillOf(t, e, b) > 0
    ensures e.ord.owner == t.orders[a].owner
  {
    if e.ord.owner != t.orders[a].owner {
      assert Oldest(t.orders, e.ord, b);
      assert Eligible(t.orders, e.ord, a);
    }
  }

  /**
   * Over any run: as long as `a` is open, nobody but the owner of `a` fills the younger order `b`.
   * Partial fills do not cost `a` its place.
   */
  lemma {:induction false} TimePriority(t: Tables, es: seq<Event>, a: int, b: int, k: nat)
    requires Inv(t) && ValidRun(t, es) && a in t.orders && b in t.orders && k < |es|
    requires t.orders[a].item == t.orders[b].item && t.orders[a].side == t.orders[b].side
    requires if t.orders[a].side == Sell then t.orders[a].price <= t.orders[b].price
             else t.orders[a].price >= t.orders[b].price
    requires t.orders[a].createdAt < t.orders[b].createdAt
    ensures ValidRun(t, es[..k])
    ensures var now := After(t, es[..k]);
            && Inv(now) && Enabled(now, es[k])
            && (a in now.orders && FillOf(now, es[k], b) > 0 ==> es[k].ord.owner == t.orders[a].owner)
  {
    RunSplit(t, es, k);
    RunKeepsInv(t, es[..k]);
    var now := After(t, es[..k]);
    assert es[k..][0] == es[k];
    if a in now.orders && FillOf(now, es[k], b) > 0 {
      OrderLifetime(t, es[..k], a);
      OrderLifetime(t, es[..k], b);
      StepRespectsTime(now, es[k], a, b);
    }
  }

  // ---------- All or nothing ----------

  /**
   * When a command fails, and when its failure is not clean. A buy succeeds exactly when it is funded.
   * A sell of OMG with something left over is the only failure that leaves a trade behind.
   */
  lemma AllOrNothing(t: Tables, ord: Order, pick: int, stamp: int, posted: int)
    requires Inv(t) && ord.WellFormed() && ValidPick(t.orders, ord, pick)
    ensures var (t', code) := Place(t, ord, pick, stamp, posted);
            var funded := ord.owner in t.users
                          && if ord.side == Buy then ord.quantity as real * ord.price <= t.users[ord.owner].omg as real
                             else ord.quantity <= t.users[ord.owner].Balance(ord.item);
            var filledWhole := pick != NO_MATCH && ord.quantity <= t.orders[pick].quantity;
            var mayRest := ord.side == Buy || ord.item != OMG;
            && (code == OK <==> funded && (mayRest || filledWhole))
            && (code == SQLITE_ERROR <==> funded && !mayRest && pick == NO_MATCH)
            && (code != OK && t' != t <==> funded && !mayRest && pick != NO_MATCH && !filledWhole)
  {
    if ord.side == Buy {
      BuyAnswers(t, ord, pick, stamp, posted);
    } else {
      SellAnswers(t, ord, pick, stamp, posted);
      if pick != NO_MATCH {
        assert RowOk(t, pick);
      }
    }
  }

  /** Paying and reserving together never exceed the cost at the limit, rounded up. */
  lemma BuyWithinLimit(t: Tables, ord: Order, pick: int, stamp: int, posted: int)
    requires Inv(t) && ord.WellFormed() && ValidPick(t.orders, ord, pick) && ord.side == Buy && ord.item != OMG
    requires ord.owner in t.users && Funded(t.users[ord.owner], ord)
    ensures 0 <= t.users[ord.owner].omg - Place(t, ord, pick, stamp, posted).0.users[ord.owner].omg
              <= Ceil(ord.Cost(ord.quantity))
  {
    var u := t.users[ord.owner];
    TimesNonNegative(ord.quantity, ord.price);
    if pick != NO_MATCH {
      assert RowOk(t, pick);
      var row := t.orders[pick];
      var n := Volume(row, ord);
      RemainderAffordable(u.omg, ord.quantity, n, ord.price, row.price);
      TimesNonNegative(n, row.price);
      TimesNonNegative(ord.quantity - n, ord.price);
      var paid := Settle(t, ord, pick, stamp).users[ord.owner];
      assert paid.omg == Trunc(u.omg as real - Times(n, row.price));
    }
  }

  // ---------- Trades ----------

  /** The archive only grows, by one pair when and only when an order is filled. */
  lemma StepArchives(t: Tables, e: Event)
    requires Inv(t) && Enabled(t, e)
    ensures var pairs := if e.Submission? && FillOf(t, e, e.pick) > 0
                         then [t.orders[e.pick], e.ord.(createdAt := e.stamp)] else [];
            && Step(t, e).archives == t.archives + pairs
            && (pairs != [] ==>
                  && TradeOk(pairs[0], pairs[1])
                  && FillOf(t, e, e.pick)
                     == if pairs[0].quantity < pairs[1].quantity then pairs[0].quantity else pairs[1].quantity)
  {
    if e.Submission? && e.pick in t.orders {
      assert RowOk(t, e.pick);
    }
  }

  lemma {:induction false} RunArchives(t: Tables, es: seq<Event>)
    requires Inv(t) && ValidRun(t, es)
    ensures t.archives <= After(t, es).archives && ArchiveInv(After(t, es).archives, After(t, es).users.Keys)
    decreases |es|
  {
    if es != [] {
      StepArchives(t, es[0]);
      StepKeepsInv(t, es[0]);
      RunArchives(Step(t, es[0]), es[1..]);
    }
  }

  /** What every pair of the archive is, row by row. */
  lemma {:induction false} ArchivedPair(archives: seq<Order>, users: set<int>, i: nat)
    requires ArchiveInv(archives, users) && 2 * i < |archives|
    ensures |archives| % 2 == 0 && 2 * i + 1 < |archives|
    ensures var row, ord := archives[2 * i], archives[2 * i + 1];
            && row.item == ord.item && row.side != ord.side && row.owner != ord.owner
            && (if ord.side == Buy then row.price <= ord.price else row.price >= ord.price)
            && row.quantity > 0 && ord.quantity > 0 && row.price >= 0.0 && ord.price >= 0.0
            && row.createdAt <= ord.createdAt && row.owner in users && ord.owner in users
    decreases |archives|
  {
    var k := |archives| - 2;
    if 2 * i < k {
      ArchivedPair(archives[..k], users, i);
    } else if k > 0 {
      ArchivedPair(archives[..k], users, 0);
    }
  }

  /** The OMG that moves as coins, in a trade of `n` units of `item`. */
  function CoinsOfOmg(item: Coin, n: int): int {
    if item == OMG then n else 0
  }

  /** What a buyer's leg does to the OMG balance. */
  lemma BuyerPays(u: User, item: Coin, n: int, cost: real)
    requires cost >= 0.0
    ensures u.omg - u.Bought(item, n, cost).omg
            == (if u.omg as real - cost >= 0.0 then Ceil(cost) else Trunc(cost)) - CoinsOfOmg(item, n)
  {
    RoundedPayment(u.omg, cost);
    assert u.omg as real + -cost == u.omg as real - cost;
  }

  /**
   * A trade is at the resting price for both sides, to the coin: the buyer pays the cost rounded up,
   * the seller receives it rounded down. Only a balance that is negative afterwards is rounded the
   * other way. In a trade of OMG itself the coins move as well.
   */
  lemma BothSidesAtRestingPrice(t: Tables, ord: Order, id: int, stamp: int)
    requires Inv(t) && ord.WellFormed() && ord.owner in t.users && Funded(t.users[ord.owner], ord)
    requires Eligible(t.orders, ord, id)
    ensures t.orders[id].owner in t.users
    ensures var row, t' := t.orders[id], Settle(t, ord, id, stamp);
            var n := Volume(row, ord);
            var k, cost := CoinsOfOmg(ord.item, n), row.Cost(n);
            var u, v := t.users[ord.owner].omg, t.users[row.owner].omg;
            var taker, maker := t'.users[ord.owner].omg - u, t'.users[row.owner].omg - v;
            if ord.side == Buy then
              && taker == k - Ceil(cost)
              && maker == (if v as real + cost >= 0.0 then Trunc(cost) else Ceil(cost)) - k
            else
              && taker == (if u as real + cost >= k as real then Trunc(cost) else Ceil(cost)) - k
              && maker == k - (if v as real - cost >= 0.0 then Ceil(cost) else Trunc(cost))
  {
    assert RowOk(t, id);
    var row := t.orders[id];
    var n := Volume(row, ord);
    var u, v, cost := t.users[ord.owner], t.users[row.owner], row.Cost(n);
    TimesNonNegative(n, row.price);
    if ord.side == Buy {
      TimesMonotone(n, row.price, ord.price);
      TimesSplit(ord.quantity, n, ord.price);
      TimesNonNegative(ord.quantity - n, ord.price);
      BuyerPays(u, ord.item, n, cost);
      RoundedReceipt(v.omg, cost);
    } else {
      RoundedReceipt(u.Credit(ord.item, -n).omg, cost);
      BuyerPays(v, row.item, n, cost);
    }
  }

  /** The resting price is never worse for the taker than the taker's own limit. */
  lemma TakerGetsRestingPrice(t: Tables, ord: Order, id: int, stamp: int)
    requires Inv(t) && ord.WellFormed() && ord.owner in t.users && Funded(t.users[ord.owner], ord)
    requires Eligible(t.orders, ord, id)
    ensures t.orders[id].owner in t.users
    ensures var n := Volume(t.orders[id], ord);
            var k := CoinsOfOmg(ord.item, n);
            var gain := Settle(t, ord, id, stamp).users[ord.owner].omg - t.users[ord.owner].omg;
            if ord.side == Buy then gain >= k - Ceil(ord.Cost(n)) else gain >= Trunc(ord.Cost(n)) - k
  {
    BothSidesAtRestingPrice(t, ord, id, stamp);
    assert RowOk(t, id);
    var row := t.orders[id];
    var n := Volume(row, ord);
    TimesNonNegative(n, row.price);
    TimesNonNegative(n, ord.price);
    if ord.side == Buy {
      TimesMonotone(n, row.price, ord.price);
      CeilMonotone(row.Cost(n), ord.Cost(n));
    } else {
      TimesMonotone(n, ord.price, row.price);
      TruncMonotone(ord.Cost(n), row.Cost(n));
      RoundedReceipt(0, row.Cost(n));
    }
  }

  // ---------- Crossing ----------

  /** No two orders in the book could trade with each other. */
  predicate Uncrossed(orders: map<int, Order>) {
    forall i, j | i in orders && j in orders :: !Crosses(orders[i], orders[j])
  }

  /** A command meets at most one order of the book, so what it posts may still cross another one. */
  predicate PostsPastOthers(t: Tables, ord: Order, pick: int) {
    && pick != NO_MATCH && pick in t.orders && t.orders[pick].quantity < ord.quantity
    && exists j | j in t.orders :: j != pick && Eligible(t.orders, ord, j)
  }

  lemma TradeKeepsUncrossed(t: Tables, ord: Order, id: int, stamp: int)
    requires Inv(t) && ord.owner in t.users && Eligible(t.orders, ord, id) && Uncrossed(t.orders)
    ensures t.orders[id].owner in t.users && Uncrossed(Settle(t, ord, id, stamp).orders)
  {
    assert RowOk(t, id);
    var orders := Settle(t, ord, id, stamp).orders;
    forall i, j | i in orders && j in orders ensures !Crosses(orders[i], orders[j]) {
      assert !Crosses(t.orders[i], t.orders[j]);
    }
  }

  /** A posted order crosses the book exactly when something in it is eligible. */
  lemma PostedOrderCrosses(t: Tables, ord: Order, posted: int)
    requires Inv(t) && ord.owner in t.users && Uncrossed(t.orders)
    ensures Uncrossed(Rest(t, ord, posted).orders) <==> forall j | j in t.orders :: !Eligible(t.orders, ord, j)
  {
    var id, orders := t.nextOrderId, Rest(t, ord, posted).orders;
    assert forall j | j in t.orders :: j in orders && orders[j] == t.orders[j];
    forall i, j | i in orders && j in orders && (forall k | k in t.orders :: !Eligible(t.orders, ord, k))
      ensures !Crosses(orders[i], orders[j])
    {
      if j == id && i != id {
        assert !Eligible(t.orders, ord, i);
      } else if i == id && j != id {
        assert !Eligible(t.orders, ord, j);
      }
    }
    forall j | j in t.orders && Eligible(t.orders, ord, j) ensures !Uncrossed(orders) {
      assert Crosses(orders[j], orders[id]);
    }
  }

  /** The command posts what is left of its order past an order that it could have met. */
  predicate CrossesBook(t: Tables, e: Event) {
    && e.Submission?
    && PostsPastOthers(t, e.ord, e.pick)
    && e.ord.CanRest() && e.ord.owner in t.users && Funded(t.users[e.ord.owner], e.ord)
  }

  lemma PlaceUncrossed(t: Tables, ord: Order, pick: int, stamp: int, posted: int)
    requires Inv(t) && ord.WellFormed() && ValidPick(t.orders, ord, pick) && t.clock <= stamp <= posted
    requires Uncrossed(t.orders)
    ensures Uncrossed(Place(t, ord, pick, stamp, posted).0.orders)
            <==> !CrossesBook(t, Submission(ord, pick, stamp, posted))
  {
    if ord.owner in t.users && Funded(t.users[ord.owner], ord) {
      if pick == NO_MATCH {
        if ord.CanRest() {
          PostedOrderCrosses(t, ord, posted);
        }
      } else {
        assert RowOk(t, pick);
        TradeKeepsUncrossed(t, ord, pick, stamp);
        SettleKeepsInv(t, ord, pick, stamp);
        var t', left := Settle(t, ord, pick, stamp), Leftover(t.orders, ord, pick);
        if left.quantity > 0 && ord.CanRest() {
          PostedOrderCrosses(t', left, posted);
          assert t'.orders == t.orders - {pick};
          assert forall j | j in t'.orders :: Eligible(t'.orders, left, j) <==> Eligible(t.orders, ord, j);
        }
      }
    }
  }

  lemma CancelUncrossed(t: Tables, id: int, userId: int)
    requires Inv(t) && Uncrossed(t.orders)
    ensures Uncrossed(Cancel(t, id, userId).0.orders)
  {
    var orders := Cancel(t, id, userId).0.orders;
    forall i, j | i in orders && j in orders ensures !Crosses(orders[i], orders[j]) {
      assert !Crosses(t.orders[i], t.orders[j]);
    }
  }

  /** After any command, successful or not, an uncrossed book is uncrossed unless that command crossed it. */
  lemma UncrossedExactlyWhen(t: Tables, e: Event)
    requires Inv(t) && Enabled(t, e) && Uncrossed(t.orders)
    ensures Uncrossed(Step(t, e).orders) <==> !CrossesBook(t, e)
  {
    match e
    case Registration(_) =>
    case Submission(ord, pick, stamp, posted) => PlaceUncrossed(t, ord, pick, stamp, posted);
    case Cancellation(orderId, userId) => CancelUncrossed(t, orderId, userId);
  }

  /** The book is uncrossed in every state of the run. */
  ghost predicate AlwaysUncrossed(t: Tables, es: seq<Event>)
    requires ValidRun(t, es)
    decreases |es|
  {
    Uncrossed(t.orders) && (es == [] || AlwaysUncrossed(Step(t, es[0]), es[1..]))
  }

  /** No command of the run crosses the book it finds. */
  ghost predicate NoneCrosses(t: Tables, es: seq<Event>)
    requires ValidRun(t, es)
    decreases |es|
  {
    es == [] || (!CrossesBook(t, es[0]) && NoneCrosses(Step(t, es[0]), es[1..]))
  }

  lemma {:induction false} RunUncrossedExactlyWhen(t: Tables, es: seq<Event>)
    requires Inv(t) && ValidRun(t, es) && Uncrossed(t.orders)
    ensures AlwaysUncrossed(t, es) <==> NoneCrosses(t, es)
    decreases |es|
  {
    if es != [] {
      var t' := Step(t, es[0]);
      UncrossedExactlyWhen(t, es[0]);
      StepKeepsInv(t, es[0]);
      if Uncrossed(t'.orders) {
        RunUncrossedExactlyWhen(t', es[1..]);
      }
    }
  }

  /** From empty tables the book is never crossed exactly if no command crosses it. */
  lemma UncrossedFromEmpty(es: seq<Event>)
    requires ValidRun(EMPTY, es)
    ensures AlwaysUncrossed(EMPTY, es) <==> NoneCrosses(EMPTY, es)
  {
    RunUncrossedExactlyWhen(EMPTY, es);
  }
}
