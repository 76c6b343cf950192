/** The OMG of one user, over all serial runs: exact up to one rounding for each command that touches the user. */
module UserMoney {
  import opened Rounding
  import opened Market
  import opened Runs
  import opened Book
  import opened Sums
  import opened ItemLedger
  import opened OmgLedger
  import opened Floors

  ghost function BidBy(u: int): Order -> real {
    (o: Order) => if o.side == Buy && o.owner == u then o.Cost(o.quantity) else 0.0
  }

  ghost function PaidTakingBy(u: int): (Order, Order) -> real {
    (r: Order, x: Order) => if x.side == Buy && x.owner == u then r.Cost(Volume(r, x)) else 0.0
  }

  ghost function ReceivedBy(u: int): (Order, Order) -> real {
    (r: Order, x: Order) =>
      if (if x.side == Sell then x.owner == u else r.owner == u) then r.Cost(Volume(r, x)) else 0.0
  }

  /** OMG that changed hands as the item of a trade. */
  ghost function CoinsGained(u: int): (Order, Order) -> real {
    (r: Order, x: Order) =>
      if x.item != OMG then 0.0
      else
        (if (if x.side == Buy then x.owner == u else r.owner == u) then Volume(r, x) as real else 0.0)
        - (if x.side == Sell && x.owner == u then Volume(r, x) as real else 0.0)
  }

  /** What the OMG balance of `u` would be had `u` never traded or bid. */
  ghost function Worth(t: Tables, u: int): real
    requires u in t.users
  {
    t.users[u].omg as real + Sum(t.orders, BidBy(u))
    + TradeSum(t.archives, PaidTakingBy(u))
    + 2.0 * TradeSum(t.archives, PaidForBidsOf(u))
    - TradeSum(t.archives, ReceivedBy(u))
    - TradeSum(t.archives, CoinsGained(u))
  }

  /** The part of the worth that one archived trade makes up. */
  ghost function TradeWorth(u: int, r: Order, x: Order): real {
    PaidTakingBy(u)(r, x) + 2.0 * PaidForBidsOf(u)(r, x) - ReceivedBy(u)(r, x) - CoinsGained(u)(r, x)
  }

  /** What a trade is worth to each of its sides, and to nobody else. */
  lemma TradeWorths(u: int, r: Order, x: Order)
    requires r.owner != x.owner && r.item == x.item && r.side != x.side
    ensures var n := Volume(r, x);
            var k, cost := CoinsOfOmg(x.item, n) as real, r.Cost(n);
            TradeWorth(u, r, x) ==
              if u == x.owner then (if x.side == Buy then cost - k else k - cost)
              else if u == r.owner then (if x.side == Buy then -cost else 2.0 * cost - k)
              else 0.0
  {
  }

  lemma SettledWorth(t: Tables, ord: Order, id: int, stamp: int, u: int)
    requires ord.owner in t.users && Eligible(t.orders, ord, id) && t.orders[id].owner in t.users && u in t.users
    ensures var t', row := Settle(t, ord, id, stamp), t.orders[id];
            var n := Volume(row, ord);
            Worth(t', u) - Worth(t, u)
            == (t'.users[u].omg - t.users[u].omg) as real
               + (if n == row.quantity then 0.0 else BidBy(u)(row.(quantity := row.quantity - n))) - BidBy(u)(row)
               + TradeWorth(u, row, ord.(createdAt := stamp))
  {
    var row, taken := t.orders[id], ord.(createdAt := stamp);
    SettleSums(t, ord, id, stamp, Holding(OMG), BidBy(u), PaidTakingBy(u));
    TradeSumAppend(t.archives, row, taken, PaidForBidsOf(u));
    TradeSumAppend(t.archives, row, taken, ReceivedBy(u));
    TradeSumAppend(t.archives, row, taken, CoinsGained(u));
  }

  /** The taker's leg, compared with what the trade is worth to the taker. */
  lemma TakerLegDrift(u: User, ord: Order, row: Order, n: int)
    requires ord.WellFormed() && row.price >= 0.0 && Crosses(row, ord) && Funded(u, ord) && 0 <= n <= ord.quantity
    ensures var k, cost := CoinsOfOmg(ord.item, n) as real, row.Cost(n);
            var gain := (TakerLeg(u, ord, row, n).omg - u.omg) as real
                        + (if ord.side == Buy then cost - k else k - cost);
            && -1.0 < gain < 1.0
            && (ord.side == Buy ==> gain <= 0.0)
            && (Whole(row.price) ==> gain == 0.0)
  {
    var cost := row.Cost(n);
    TimesNonNegative(n, row.price);
    if Whole(row.price) {
      WholeTimes(n, row.price);
      WholeWitness(-cost, -cost.Floor);
    }
    if ord.side == Buy {
      TimesMonotone(n, row.price, ord.price);
      TimesSplit(ord.quantity, n, ord.price);
      TimesNonNegative(ord.quantity - n, ord.price);
      EarnDrift(u, -cost);
    } else {
      EarnDrift(u.Credit(ord.item, -n), cost);
    }
  }

  /** The maker's leg, with the bid it fills; the row is one that may rest. */
  lemma MakerLegDrift(v: User, ord: Order, row: Order, n: int)
    requires Crosses(row, ord) && row.CanRest() && n >= 0
    ensures var k, cost := CoinsOfOmg(ord.item, n) as real, row.Cost(n);
            var gain := (MakerLeg(v, ord, row, n).omg - v.omg) as real + (if ord.side == Buy then -cost else cost - k);
            && -1.0 < gain < 1.0
            && (Whole(row.price) ==> gain == 0.0)
  {
    var cost := row.Cost(n);
    if Whole(row.price) {
      WholeTimes(n, row.price);
      WholeWitness(-cost, -cost.Floor);
    }
    EarnDrift(v, if ord.side == Buy then cost else -cost);
  }

  lemma TakerWorth(t: Tables, ord: Order, id: int, stamp: int)
    requires TableInv(t) && ord.WellFormed() && ord.owner in t.users && Funded(t.users[ord.owner], ord)
    requires Eligible(t.orders, ord, id)
    ensures t.orders[id].owner in t.users
    ensures var gain := Worth(Settle(t, ord, id, stamp), ord.owner) - Worth(t, ord.owner);
            && -1.0 < gain < 1.0
            && (ord.side == Buy ==> gain <= 0.0)
            && (Whole(t.orders[id].price) ==> gain == 0.0)
  {
    assert RowOk(t, id);
    var row := t.orders[id];
    SettledWorth(t, ord, id, stamp, ord.owner);
    TradeWorths(ord.owner, row, ord.(createdAt := stamp));
    TakerLegDrift(t.users[ord.owner], ord, row, Volume(row, ord));
  }

  lemma MakerWorth(t: Tables, ord: Order, id: int, stamp: int)
    requires TableInv(t) && ord.WellFormed() && ord.owner in t.users && Eligible(t.orders, ord, id)
    ensures var u := t.orders[id].owner;
            && u in t.users
            && var gain := Worth(Settle(t, ord, id, stamp), u) - Worth(t, u);
            && -1.0 < gain < 1.0
            && (Whole(t.orders[id].price) ==> gain == 0.0)
  {
    assert RowOk(t, id);
    var row := t.orders[id];
    var n := Volume(row, ord);
    SettledWorth(t, ord, id, stamp, row.owner);
    TradeWorths(row.owner, row, ord.(createdAt := stamp));
    MakerLegDrift(t.users[row.owner], ord, row, n);
    BidFilled(row, n);
  }

  lemma StrangerWorth(t: Tables, ord: Order, id: int, stamp: int, u: int)
    requires ord.owner in t.users && Eligible(t.orders, ord, id) && t.orders[id].owner in t.users
    requires u in t.users && u != ord.owner && u != t.orders[id].owner
    ensures Worth(Settle(t, ord, id, stamp), u) == Worth(t, u)
  {
    SettledWorth(t, ord, id, stamp, u);
    TradeWorths(u, t.orders[id], ord.(createdAt := stamp));
  }

  /** A trade rounds the balances of its two users and of nobody else. */
  lemma SettleWorth(t: Tables, ord: Order, id: int, stamp: int, u: int)
    requires TableInv(t) && ord.WellFormed() && ord.owner in t.users && Funded(t.users[ord.owner], ord)
    requires Eligible(t.orders, ord, id) && u in t.users
    ensures t.orders[id].owner in t.users
    ensures var gain := Worth(Settle(t, ord, id, stamp), u) - Worth(t, u);
            && -1.0 < gain < 1.0
            && (u == ord.owner && ord.side == Buy ==> gain <= 0.0)
            && ((u != ord.owner && u != t.orders[id].owner) || Whole(t.orders[id].price) ==> gain == 0.0)
  {
    assert RowOk(t, id);
    if u == ord.owner {
      TakerWorth(t, ord, id, stamp);
    } else if u == t.orders[id].owner {
      MakerWorth(t, ord, id, stamp);
    } else {
      StrangerWorth(t, ord, id, stamp, u);
    }
  }

  lemma RestWorth(t: Tables, ord: Order, posted: int, u: int)
    requires TableInv(t) && ord.WellFormed() && ord.CanRest() && ord.owner in t.users && u in t.users
    ensures var gain := Worth(Rest(t, ord, posted), u) - Worth(t, u);
            && 0.0 <= gain < 1.0
            && (u != ord.owner || ord.side == Sell || Whole(ord.price) ==> gain == 0.0)
  {
    RestSums(t, ord, posted, Holding(OMG), BidBy(u));
    TimesNonNegative(ord.quantity, ord.price);
    if Whole(ord.price) {
      WholeTimes(ord.quantity, ord.price);
    }
    assert BidBy(u)(ord.(createdAt := posted)) == BidBy(u)(ord);
  }

  /** A command that may round the balance of `u`: its own, or one that meets its order. */
  predicate Touches(t: Tables, e: Event, u: int) {
    match e
    case Registration(_) => false
    case Submission(ord, pick, _, _) => ord.owner == u || (pick in t.orders && t.orders[pick].owner == u)
    case Cancellation(_, userId) => userId == u
  }

  lemma PlaceWorth(t: Tables, ord: Order, pick: int, stamp: int, posted: int, u: int)
    requires Inv(t) && ord.WellFormed() && ValidPick(t.orders, ord, pick) && t.clock <= stamp <= posted
    requires u in t.users
    ensures var t' := Place(t, ord, pick, stamp, posted).0;
            && u in t'.users
            && var gain := Worth(t', u) - Worth(t, u);
            && -1.0 < gain < 1.0
            && (!Touches(t, Submission(ord, pick, stamp, posted), u) ==> gain == 0.0)
            && (WholePrices(t.orders) && Whole(ord.price) ==> gain == 0.0)
  {
    if ord.owner in t.users && Funded(t.users[ord.owner], ord) {
      if pick == NO_MATCH {
        if ord.CanRest() {
          RestWorth(t, ord, posted, u);
        }
      } else {
        assert RowOk(t, pick);
        SettleWorth(t, ord, pick, stamp, u);
        SettleKeepsInv(t, ord, pick, stamp);
        var left := Leftover(t.orders, ord, pick);
        if left.quantity != 0 && left.CanRest() {
          RestWorth(Settle(t, ord, pick, stamp), left, posted, u);
        }
      }
    }
  }

  lemma CancelWorth(t: Tables, id: int, userId: int, u: int)
    requires Inv(t) && u in t.users
    ensures var t' := Cancel(t, id, userId).0;
            && u in t'.users
            && var gain := Worth(t', u) - Worth(t, u);
            && -1.0 < gain < 1.0
            && (u != userId || WholePrices(t.orders) ==> gain == 0.0)
  {
    if id in t.orders && t.orders[id].owner == userId {
      var row := t.orders[id];
      CancelSums(t, id, Holding(OMG), BidBy(u));
      assert RowOk(t, id);
      EarnDrift(t.users[userId], row.Cost(row.quantity));
      if WholePrices(t.orders) {
        WholeTimes(row.quantity, row.price);
      }
    }
  }

  lemma StepWorth(t: Tables, e: Event, u: int)
    requires Inv(t) && Enabled(t, e) && u in t.users
    ensures u in Step(t, e).users
    ensures var gain := Worth(Step(t, e), u) - Worth(t, u);
            && -1.0 < gain < 1.0
            && (Touches(t, e, u) ==>
                  if e.Submission? then e.ord.owner == u || (e.pick in t.orders && t.orders[e.pick].owner == u)
                  else e.Cancellation? && e.userId == u)
            && (!Touches(t, e, u) ==> gain == 0.0)
            && (WholePrices(t.orders) && (e.Submission? ==> Whole(e.ord.price)) ==> gain == 0.0)
  {
    match e
    case Registration(balances) =>
    case Submission(ord, pick, stamp, posted) => PlaceWorth(t, ord, pick, stamp, posted, u);
    case Cancellation(orderId, userId) => CancelWorth(t, orderId, userId, u);
  }

  /** How many commands of the run touch `u`. */
  ghost function Touching(t: Tables, es: seq<Event>, u: int): (n: nat)
    requires ValidRun(t, es)
    ensures n <= |es|
    decreases |es|
  {
    if es == [] then 0 else (if Touches(t, es[0], u) then 1 else 0) + Touching(Step(t, es[0]), es[1..], u)
  }

  lemma {:induction false} RunWorth(t: Tables, es: seq<Event>, u: int)
    requires Inv(t) && ValidRun(t, es) && u in t.users
    ensures u in After(t, es).users
    ensures var gain := Worth(After(t, es), u) - Worth(t, u);
            -(Touching(t, es, u) as real) <= gain <= Touching(t, es, u) as real
    decreases |es|
  {
    if es != [] {
      StepWorth(t, es[0], u);
      StepKeepsInv(t, es[0]);
      RunWorth(Step(t, es[0]), es[1..], u);
    }
  }

  lemma {:induction false} RunWorthExact(t: Tables, es: seq<Event>, u: int)
    requires Inv(t) && ValidRun(t, es) && u in t.users && WholePrices(t.orders)
    requires forall e | e in es && e.Submission? :: Whole(e.ord.price)
    ensures u in After(t, es).users && Worth(After(t, es), u) == Worth(t, u)
    decreases |es|
  {
    if es != [] {
      StepWorth(t, es[0], u);
      StepKeepsInv(t, es[0]);
      StepKeepsWholePrices(t, es[0]);
      RunWorthExact(Step(t, es[0]), es[1..], u);
    }
  }

  /** A user the archive does not mention has paid and received nothing. */
  lemma {:induction false} StrangerPaidNothing(archives: seq<Order>, users: set<int>, u: int)
    requires ArchiveInv(archives, users) && u !in users
    ensures TradeSum(archives, PaidTakingBy(u)) == 0.0
    ensures TradeSum(archives, PaidForBidsOf(u)) == 0.0
    ensures TradeSum(archives, ReceivedBy(u)) == 0.0
    ensures TradeSum(archives, CoinsGained(u)) == 0.0
    decreases |archives|
  {
    if archives != [] {
      StrangerPaidNothing(archives[..|archives| - 2], users, u);
    }
  }

  /**
   * The OMG of a user from registration on: registered - bid - paid as taker - 2 x paid for filled
   * bids + received + OMG traded as an item, off by at most one for each command that touches the
   * user, and exact when the user's market has whole prices only.
   */
  lemma UserMoneyFromRegistration(t: Tables, balances: User, es: seq<Event>)
    requires Inv(t) && ValidRun(Register(t, balances), es)
    ensures var u, t' := t.nextUserId, After(Register(t, balances), es);
            && u in t'.users
            && var expected := balances.omg as real
                               - Sum(t'.orders, BidBy(u))
                               - TradeSum(t'.archives, PaidTakingBy(u))
                               - 2.0 * TradeSum(t'.archives, PaidForBidsOf(u))
                               + TradeSum(t'.archives, ReceivedBy(u))
                               + TradeSum(t'.archives, CoinsGained(u));
            var off := t'.users[u].omg as real - expected;
            var n := Touching(Register(t, balances), es, u) as real;
            && -n <= off <= n
            && (WholePrices(t.orders) && (forall e | e in es && e.Submission? :: Whole(e.ord.price)) ==> off == 0.0)
  {
    var u, start := t.nextUserId, Register(t, balances);
    RegisterKeepsInv(t, balances);
    forall id | id in t.orders ensures BidBy(u)(t.orders[id]) == 0.0 {
      assert RowOk(t, id);
    }
    SumOfNothing(t.orders, BidBy(u));
    StrangerPaidNothing(t.archives, t.users.Keys, u);
    RunWorth(start, es, u);
    if WholePrices(t.orders) && forall e | e in es && e.Submission? :: Whole(e.ord.price) {
      RunWorthExact(start, es, u);
    }
  }
}
