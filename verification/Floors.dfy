/** How far below zero a balance can go: by what the user's own resting orders were charged a second time. */
module Floors {
  import opened Rounding
  import opened Market
  import opened Runs
  import opened Sums
  import opened ItemLedger

  ghost function PaidForBidsOf(u: int): (Order, Order) -> real {
    (r: Order, x: Order) => if r.side == Buy && r.owner == u then r.Cost(Volume(r, x)) else 0.0
  }

  /** What the settled resting orders of `u` were charged in coin `c` when they were filled. */
  ghost function Charge(u: int, c: Coin): (Order, Order) -> real {
    if c == OMG then PaidForBidsOf(u) else SoldRestingBy(u, c)
  }

  ghost predicate Above(t: Tables, u: int, c: Coin)
    requires u in t.users
  {
    t.users[u].Balance(c) as real >= -TradeSum(t.archives, Charge(u, c))
  }

  lemma ChargeNonNegative(resting: Order, taker: Order, u: int, c: Coin)
    requires resting.price >= 0.0 && resting.quantity > 0 && taker.quantity > 0
    ensures Charge(u, c)(resting, taker) >= 0.0
  {
    TimesNonNegative(Volume(resting, taker), resting.price);
  }

  lemma {:induction false} ChargesNonNegative(archives: seq<Order>, users: set<int>, u: int, c: Coin)
    requires ArchiveInv(archives, users)
    ensures TradeSum(archives, Charge(u, c)) >= 0.0
    decreases |archives|
  {
    if archives != [] {
      var k := |archives| - 2;
      ChargesNonNegative(archives[..k], users, u, c);
      ChargeNonNegative(archives[k], archives[k + 1], u, c);
    }
  }

  /** Rounding toward zero does not cross a bound at or below zero. */
  lemma TruncAbove(x: real, d: real)
    requires 0.0 <= d && x >= -d
    ensures Trunc(x) as real >= -d
  {
  }

  // ---------- One leg at a time ----------

  /** The taker was checked before trading, so the taker's side of the trade does not reach zero. */
  lemma TakerStaysAbove(u: User, taker: Order, resting: Order, n: int, c: Coin, d: real)
    requires taker.WellFormed() && resting.price >= 0.0 && Crosses(resting, taker) && Funded(u, taker)
    requires 0 < n <= taker.quantity
    requires d >= 0.0 && u.Balance(c) as real >= -d
    ensures TakerLeg(u, taker, resting, n).Balance(c) as real >= -d
  {
    var cost := resting.Cost(n);
    TimesNonNegative(n, resting.price);
    if c != OMG {
      LegsMoveCoins(u, taker, resting, n, c);
    } else if taker.side == Buy {
      TimesMonotone(n, resting.price, taker.price);
      TimesSplit(taker.quantity, n, taker.price);
      TimesNonNegative(taker.quantity - n, taker.price);
      assert u.Earn(-cost).omg >= 0;
    } else {
      TruncAbove(u.Credit(taker.item, -n).omg as real + cost, d);
    }
  }

  /** The maker is not checked again, and falls by no more than the charge of this trade. */
  lemma MakerStaysAbove(v: User, taker: Order, resting: Order, n: int, c: Coin, d: real)
    requires taker.WellFormed() && resting.WellFormed() && resting.CanRest() && Crosses(resting, taker)
    requires n == Volume(resting, taker)
    requires d >= 0.0 && v.Balance(c) as real >= -d
    ensures MakerLeg(v, taker, resting, n).Balance(c) as real >= -(d + Charge(resting.owner, c)(resting, taker))
  {
    var cost := resting.Cost(n);
    TimesNonNegative(n, resting.price);
    if c != OMG {
      LegsMoveCoins(v, taker, resting, n, c);
    } else if taker.side == Buy {
      TruncAbove(v.omg as real + cost, d);
    } else {
      TruncAbove(v.omg as real - cost, d + cost);
      assert v.Earn(-cost).omg == Trunc(v.omg as real - cost);
    }
  }

  // ---------- One command ----------

  lemma SettleStaysAbove(t: Tables, ord: Order, id: int, stamp: int, u: int, c: Coin)
    requires Inv(t) && ord.WellFormed() && ord.owner in t.users && Funded(t.users[ord.owner], ord)
    requires Eligible(t.orders, ord, id) && u in t.users && Above(t, u, c)
    ensures t.orders[id].owner in t.users && Above(Settle(t, ord, id, stamp), u, c)
  {
    assert RowOk(t, id);
    var row, taken := t.orders[id], ord.(createdAt := stamp);
    var d := TradeSum(t.archives, Charge(u, c));
    TradeSumAppend(t.archives, row, taken, Charge(u, c));
    ChargesNonNegative(t.archives, t.users.Keys, u, c);
    ChargeNonNegative(row, taken, u, c);
    var before, after := t.users[u], Settle(t, ord, id, stamp).users[u];
    if u == ord.owner {
      TakerStaysAbove(before, ord, row, Volume(row, ord), c, d);
      assert after == TakerLeg(before, ord, row, Volume(row, ord));
    } else if u == row.owner {
      MakerStaysAbove(before, ord, row, Volume(row, ord), c, d);
      assert Charge(u, c)(row, ord) == Charge(u, c)(row, taken);
    }
  }

  lemma RestStaysAbove(t: Tables, ord: Order, posted: int, u: int, c: Coin)
    requires Inv(t) && ord.CanRest() && ord.owner in t.users && Reservable(t.users[ord.owner], ord)
    requires u in t.users && Above(t, u, c)
    ensures Above(Rest(t, ord, posted), u, c)
  {
    ChargesNonNegative(t.archives, t.users.Keys, u, c);
  }

  lemma PlaceStaysAbove(t: Tables, ord: Order, pick: int, stamp: int, posted: int, u: int, c: Coin)
    requires Inv(t) && ord.WellFormed() && ValidPick(t.orders, ord, pick) && t.clock <= stamp <= posted
    requires u in t.users && Above(t, u, c)
    ensures var t' := Place(t, ord, pick, stamp, posted).0;
            u in t'.users && Above(t', u, c)
  {
    if ord.owner in t.users && Funded(t.users[ord.owner], ord) {
      if pick == NO_MATCH {
        if ord.CanRest() {
          FundedIsReservable(t.users[ord.owner], ord);
          RestStaysAbove(t, ord, posted, u, c);
        }
      } else {
        assert RowOk(t, pick);
        SettleStaysAbove(t, ord, pick, stamp, u, c);
        SettleKeepsInv(t, ord, pick, stamp);
        var left := Leftover(t.orders, ord, pick);
        if left.quantity != 0 && left.CanRest() {
          LeftoverIsReservable(t, ord, pick, stamp);
          RestStaysAbove(Settle(t, ord, pick, stamp), left, posted, u, c);
        }
      }
    }
  }

  lemma CancelStaysAbove(t: Tables, id: int, userId: int, u: int, c: Coin)
    requires Inv(t) && u in t.users && Above(t, u, c)
    ensures var t' := Cancel(t, id, userId).0;
            u in t'.users && Above(t', u, c)
  {
    if id in t.orders && t.orders[id].owner == userId {
      assert RowOk(t, id);
      var row := t.orders[id];
      TimesNonNegative(row.quantity, row.price);
      ChargesNonNegative(t.archives, t.users.Keys, u, c);
      if c == OMG && u == userId && row.side == Buy {
        TruncAbove(t.users[u].omg as real + row.Cost(row.quantity), TradeSum(t.archives, Charge(u, c)));
      }
    }
  }

  /** Registrations bring no debts. */
  ghost predicate Solvent(e: Event) {
    e.Registration? ==> forall c: Coin :: e.balances.Balance(c) >= 0
  }

  ghost predicate AllAbove(t: Tables) {
    forall u, c: Coin | u in t.users :: Above(t, u, c)
  }

  lemma StepStaysAbove(t: Tables, e: Event)
    requires Inv(t) && Enabled(t, e) && Solvent(e) && AllAbove(t)
    ensures AllAbove(Step(t, e))
  {
    var t' := Step(t, e);
    forall u, c: Coin | u in t'.users ensures Above(t', u, c) {
      match e
      case Registration(balances) =>
        ChargesNonNegative(t.archives, t.users.Keys, u, c);
        if u in t.users && u != t.nextUserId { assert Above(t, u, c); }
      case Submission(ord, pick, stamp, posted) =>
        assert Above(t, u, c);
        PlaceStaysAbove(t, ord, pick, stamp, posted, u, c);
      case Cancellation(orderId, userId) =>
        CancelKeepsInv(t, orderId, userId);
        assert Above(t, u, c);
        CancelStaysAbove(t, orderId, userId, u, c);
    }
  }

  /** Over any serial run no balance falls below minus the charges of the user's own filled orders. */
  lemma {:induction false} RunStaysAbove(t: Tables, es: seq<Event>)
    requires Inv(t) && ValidRun(t, es) && AllAbove(t)
    requires forall e | e in es :: Solvent(e)
    ensures AllAbove(After(t, es))
    decreases |es|
  {
    if es != [] {
      StepStaysAbove(t, es[0]);
      StepKeepsInv(t, es[0]);
      RunStaysAbove(Step(t, es[0]), es[1..]);
    }
  }

  /** From empty tables, coin by coin: OMG by the cost of filled bids, the others by what was sold from the book. */
  lemma FloorFromEmpty(es: seq<Event>, u: int, c: Coin)
    requires ValidRun(EMPTY, es) && u in After(EMPTY, es).users
    requires forall e | e in es && e.Registration? ::
               e.balances.omg >= 0 && e.balances.doge >= 0 && e.balances.btc >= 0 && e.balances.eth >= 0
    ensures var t := After(EMPTY, es);
            t.users[u].Balance(c) as real
            >= -TradeSum(t.archives, if c == OMG then PaidForBidsOf(u) else SoldRestingBy(u, c))
  {
    forall e | e in es ensures Solvent(e) {
      if e.Registration? {
        forall d: Coin ensures e.balances.Balance(d) >= 0 {
        }
      }
    }
    RunStaysAbove(EMPTY, es);
    assert Above(After(EMPTY, es), u, c);
  }

  /** No archived trade has a resting order of `u`. */
  predicate NeverFilled(archives: seq<Order>, u: int)
    decreases |archives|
  {
    |archives| < 2 || (archives[|archives| - 2].owner != u && NeverFilled(archives[..|archives| - 2], u))
  }

  lemma {:induction false} NeverFilledNeverCharged(archives: seq<Order>, u: int, c: Coin)
    requires NeverFilled(archives, u)
    ensures TradeSum(archives, Charge(u, c)) == 0.0
    decreases |archives|
  {
    if |archives| >= 2 {
      NeverFilledNeverCharged(archives[..|archives| - 2], u, c);
    }
  }

  /** The first rows of the pairs are the resting ones. */
  lemma {:induction false} NobodyFilled(archives: seq<Order>, users: set<int>, u: int)
    requires ArchiveInv(archives, users)
    requires forall i | 0 <= i < |archives| && i % 2 == 0 :: archives[i].owner != u
    ensures |archives| % 2 == 0 && NeverFilled(archives, u)
    decreases |archives|
  {
    if archives != [] {
      NobodyFilled(archives[..|archives| - 2], users, u);
    }
  }

  /** From empty tables: a user none of whose resting orders was filled has no negative balance. */
  lemma UnfilledUserIsNeverNegative(es: seq<Event>, u: int, c: Coin)
    requires ValidRun(EMPTY, es) && u in After(EMPTY, es).users
    requires forall e | e in es && e.Registration? ::
               e.balances.omg >= 0 && e.balances.doge >= 0 && e.balances.btc >= 0 && e.balances.eth >= 0
    requires forall i | 0 <= i < |After(EMPTY, es).archives| && i % 2 == 0 :: After(EMPTY, es).archives[i].owner != u
    ensures After(EMPTY, es).users[u].Balance(c) >= 0
  {
    FloorFromEmpty(es, u, c);
    RunKeepsInv(EMPTY, es);
    NobodyFilled(After(EMPTY, es).archives, After(EMPTY, es).users.Keys, u);
    NeverFilledNeverCharged(After(EMPTY, es).archives, u, c);
  }
}
