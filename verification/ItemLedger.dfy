/** Where the DOGE, BTC and ETH are, over all serial runs: market-wide and user by user. */
module ItemLedger {
  import opened Market
  import opened Runs
  import opened Book
  import opened Sums

  ghost function Holding(c: Coin): User -> real {
    (u: User) => u.Balance(c) as real
  }

  ghost function Offered(c: Coin): Order -> real {
    (o: Order) => if o.side == Sell && o.item == c then o.quantity as real else 0.0
  }

  ghost function TakenByBuyers(c: Coin): (Order, Order) -> real {
    (r: Order, x: Order) => if x.side == Buy && x.item == c then Volume(r, x) as real else 0.0
  }

  ghost function OfferedBy(u: int, c: Coin): Order -> real {
    (o: Order) => if o.side == Sell && o.item == c && o.owner == u then o.quantity as real else 0.0
  }

  ghost function BoughtBy(u: int, c: Coin): (Order, Order) -> real {
    (r: Order, x: Order) =>
      if r.item == c && (if x.side == Buy then x.owner == u else r.owner == u) then Volume(r, x) as real else 0.0
  }

  ghost function SoldTakingBy(u: int, c: Coin): (Order, Order) -> real {
    (r: Order, x: Order) => if x.side == Sell && x.item == c && x.owner == u then Volume(r, x) as real else 0.0
  }

  ghost function SoldRestingBy(u: int, c: Coin): (Order, Order) -> real {
    (r: Order, x: Order) => if r.side == Sell && r.item == c && r.owner == u then Volume(r, x) as real else 0.0
  }

  function Deposit(e: Event, c: Coin): int {
    if e.Registration? then e.balances.Balance(c) else 0
  }

  function Deposits(es: seq<Event>, c: Coin): int {
    if es == [] then 0 else Deposit(es[0], c) + Deposits(es[1..], c)
  }

  // ---------- The whole market ----------

  /** Coins held, plus coins offered, plus coins that takers bought from the book. */
  ghost function Ledger(t: Tables, c: Coin): real {
    Sum(t.users, Holding(c)) + Sum(t.orders, Offered(c)) + TradeSum(t.archives, TakenByBuyers(c))
  }

  lemma SettleKeepsLedger(t: Tables, ord: Order, id: int, stamp: int, c: Coin)
    requires c != OMG && ord.WellFormed() && ord.owner in t.users
    requires Eligible(t.orders, ord, id) && t.orders[id].owner in t.users
    ensures Ledger(Settle(t, ord, id, stamp), c) == Ledger(t, c)
  {
    var row := t.orders[id];
    LegsMoveCoins(t.users[ord.owner], ord, row, Volume(row, ord), c);
    LegsMoveCoins(t.users[row.owner], ord, row, Volume(row, ord), c);
    SettleSums(t, ord, id, stamp, Holding(c), Offered(c), TakenByBuyers(c));
  }

  lemma RestKeepsLedger(t: Tables, ord: Order, posted: int, c: Coin)
    requires c != OMG && TableInv(t) && ord.owner in t.users
    ensures Ledger(Rest(t, ord, posted), c) == Ledger(t, c)
  {
    RestSums(t, ord, posted, Holding(c), Offered(c));
  }

  lemma PlaceKeepsLedger(t: Tables, ord: Order, pick: int, stamp: int, posted: int, c: Coin)
    requires c != OMG && Inv(t) && ord.WellFormed() && ValidPick(t.orders, ord, pick) && t.clock <= stamp <= posted
    ensures Ledger(Place(t, ord, pick, stamp, posted).0, c) == Ledger(t, c)
  {
    if ord.owner in t.users && Funded(t.users[ord.owner], ord) {
      if pick == NO_MATCH {
        if ord.CanRest() {
          RestKeepsLedger(t, ord, posted, c);
        }
      } else {
        assert RowOk(t, pick);
        SettleKeepsLedger(t, ord, pick, stamp, c);
        SettleKeepsInv(t, ord, pick, stamp);
        var left := Leftover(t.orders, ord, pick);
        if left.quantity != 0 && left.CanRest() {
          RestKeepsLedger(Settle(t, ord, pick, stamp), left, posted, c);
        }
      }
    }
  }

  /** One command moves coins between the three places; only a registration brings new ones. */
  lemma StepKeepsLedger(t: Tables, e: Event, c: Coin)
    requires c != OMG && Inv(t) && Enabled(t, e)
    ensures Ledger(Step(t, e), c) == Ledger(t, c) + Deposit(e, c) as real
  {
    match e
    case Registration(balances) =>
      RegisterSums(t, balances, Holding(c));
    case Submission(ord, pick, stamp, posted) =>
      PlaceKeepsLedger(t, ord, pick, stamp, posted, c);
    case Cancellation(orderId, userId) =>
      if orderId in t.orders && t.orders[orderId].owner == userId {
        CancelSums(t, orderId, Holding(c), Offered(c));
      }
  }

  /** Over any serial run the ledger grows by exactly what was registered. */
  lemma {:induction false} RunKeepsLedger(t: Tables, es: seq<Event>, c: Coin)
    requires c != OMG && Inv(t) && ValidRun(t, es)
    ensures Ledger(After(t, es), c) == Ledger(t, c) + Deposits(es, c) as real
    decreases |es|
  {
    if es != [] {
      StepKeepsLedger(t, es[0], c);
      StepKeepsInv(t, es[0]);
      RunKeepsLedger(Step(t, es[0]), es[1..], c);
    }
  }

  /** From empty tables: everything registered is held, offered or has gone to buyers from the book. */
  lemma LedgerFromEmpty(es: seq<Event>, c: Coin)
    requires c != OMG && ValidRun(EMPTY, es)
    ensures var t := After(EMPTY, es);
            Sum(t.users, Holding(c)) + Sum(t.orders, Offered(c)) + TradeSum(t.archives, TakenByBuyers(c))
            == Deposits(es, c) as real
  {
    RunKeepsLedger(EMPTY, es, c);
  }

  /** The archive shows what a buyer takes from the book. */
  lemma TakenArchived(t: Tables, e: Event, c: Coin)
    requires Inv(t) && Enabled(t, e)
    ensures var taken := if e.Submission? && e.ord.side == Buy && e.ord.item == c then FillOf(t, e, e.pick) else 0;
            && taken >= 0
            && TradeSum(Step(t, e).archives, TakenByBuyers(c)) == TradeSum(t.archives, TakenByBuyers(c)) + taken as real
  {
    StepArchives(t, e);
    if e.Submission? && FillOf(t, e, e.pick) > 0 {
      var row, taken := t.orders[e.pick], e.ord.(createdAt := e.stamp);
      TradeSumAppend(t.archives, row, taken, TakenByBuyers(c));
      assert Volume(row, taken) == FillOf(t, e, e.pick);
    } else if e.Submission? && e.pick in t.orders {
      assert RowOk(t, e.pick);
    }
  }

  /**
   * Coins held and offered are what one would expect to stay the same. They do, except when a buyer
   * takes from the book: then the seller, who reserved the coins when posting, is charged again.
   */
  lemma CoinsConservedExactlyWhen(t: Tables, e: Event, c: Coin)
    requires c != OMG && Inv(t) && Enabled(t, e)
    ensures Sum(Step(t, e).users, Holding(c)) + Sum(Step(t, e).orders, Offered(c))
            == Sum(t.users, Holding(c)) + Sum(t.orders, Offered(c)) + Deposit(e, c) as real
            <==> !(e.Submission? && e.ord.side == Buy && e.ord.item == c && FillOf(t, e, e.pick) > 0)
  {
    StepKeepsLedger(t, e, c);
    TakenArchived(t, e, c);
  }

  // ---------- One user ----------

  /** What the balance of `u` would be had `u` never traded or offered anything. */
  ghost function Audit(t: Tables, u: int, c: Coin): real
    requires u in t.users
  {
    t.users[u].Balance(c) as real + Sum(t.orders, OfferedBy(u, c))
    - TradeSum(t.archives, BoughtBy(u, c))
    + TradeSum(t.archives, SoldTakingBy(u, c))
    + 2.0 * TradeSum(t.archives, SoldRestingBy(u, c))
  }

  /** A trade moves the balance of `u` by what the archived pair says of `u`. */
  lemma SettledBalance(t: Tables, ord: Order, id: int, stamp: int, u: int, c: Coin)
    requires c != OMG && ord.owner in t.users && u in t.users
    requires Eligible(t.orders, ord, id) && t.orders[id].owner in t.users
    ensures var row, taken := t.orders[id], ord.(createdAt := stamp);
            Settle(t, ord, id, stamp).users[u].Balance(c) as real
            == t.users[u].Balance(c) as real
               + BoughtBy(u, c)(row, taken) - SoldTakingBy(u, c)(row, taken) - SoldRestingBy(u, c)(row, taken)
  {
    LegsMoveCoins(t.users[u], ord, t.orders[id], Volume(t.orders[id], ord), c);
  }

  lemma SettleKeepsAudit(t: Tables, ord: Order, id: int, stamp: int, u: int, c: Coin)
    requires c != OMG && ord.WellFormed() && ord.owner in t.users && u in t.users
    requires Eligible(t.orders, ord, id) && t.orders[id].owner in t.users
    ensures Audit(Settle(t, ord, id, stamp), u, c) == Audit(t, u, c)
  {
    var row, taken := t.orders[id], ord.(createdAt := stamp);
    SettleSums(t, ord, id, stamp, Holding(c), OfferedBy(u, c), BoughtBy(u, c));
    TradeSumAppend(t.archives, row, taken, SoldTakingBy(u, c));
    TradeSumAppend(t.archives, row, taken, SoldRestingBy(u, c));
    SettledBalance(t, ord, id, stamp, u, c);
  }

  lemma RestKeepsAudit(t: Tables, ord: Order, posted: int, u: int, c: Coin)
    requires c != OMG && TableInv(t) && ord.owner in t.users && u in t.users
    ensures Audit(Rest(t, ord, posted), u, c) == Audit(t, u, c)
  {
    RestSums(t, ord, posted, Holding(c), OfferedBy(u, c));
  }

  lemma PlaceKeepsAudit(t: Tables, ord: Order, pick: int, stamp: int, posted: int, u: int, c: Coin)
    requires c != OMG && Inv(t) && ord.WellFormed() && ValidPick(t.orders, ord, pick) && t.clock <= stamp <= posted
    requires u in t.users
    ensures var t' := Place(t, ord, pick, stamp, posted).0;
            u in t'.users && Audit(t', u, c) == Audit(t, u, c)
  {
    if ord.owner in t.users && Funded(t.users[ord.owner], ord) {
      if pick == NO_MATCH {
        if ord.CanRest() {
          RestKeepsAudit(t, ord, posted, u, c);
        }
      } else {
        assert RowOk(t, pick);
        SettleKeepsAudit(t, ord, pick, stamp, u, c);
        SettleKeepsInv(t, ord, pick, stamp);
        var left := Leftover(t.orders, ord, pick);
        if left.quantity != 0 && left.CanRest() {
          RestKeepsAudit(Settle(t, ord, pick, stamp), left, posted, u, c);
        }
      }
    }
  }

  lemma StepKeepsAudit(t: Tables, e: Event, u: int, c: Coin)
    requires c != OMG && Inv(t) && Enabled(t, e) && u in t.users
    ensures u in Step(t, e).users && Audit(Step(t, e), u, c) == Audit(t, u, c)
  {
    match e
    case Registration(balances) =>
    case Submission(ord, pick, stamp, posted) =>
      PlaceKeepsAudit(t, ord, pick, stamp, posted, u, c);
    case Cancellation(orderId, userId) =>
      if orderId in t.orders && t.orders[orderId].owner == userId {
        CancelSums(t, orderId, Holding(c), OfferedBy(u, c));
      }
  }

  lemma {:induction false} RunKeepsAudit(t: Tables, es: seq<Event>, u: int, c: Coin)
    requires c != OMG && Inv(t) && ValidRun(t, es) && u in t.users
    ensures u in After(t, es).users && Audit(After(t, es), u, c) == Audit(t, u, c)
    decreases |es|
  {
    if es != [] {
      StepKeepsAudit(t, es[0], u, c);
      StepKeepsInv(t, es[0]);
      RunKeepsAudit(Step(t, es[0]), es[1..], u, c);
    }
  }

  /** A user the archive does not mention has traded nothing. */
  lemma {:induction false} StrangerTradedNothing(archives: seq<Order>, users: set<int>, u: int, c: Coin)
    requires ArchiveInv(archives, users) && u !in users
    ensures TradeSum(archives, BoughtBy(u, c)) == 0.0
    ensures TradeSum(archives, SoldTakingBy(u, c)) == 0.0
    ensures TradeSum(archives, SoldRestingBy(u, c)) == 0.0
    decreases |archives|
  {
    if archives != [] {
      StrangerTradedNothing(archives[..|archives| - 2], users, u, c);
    }
  }

  /**
   * The audit of a user from registration on. The archive alone says how much the user bought, sold
   * as taker and sold from the book; the last is charged twice, when the order is posted and again
   * when it is filled.
   */
  lemma AuditFromRegistration(t: Tables, balances: User, es: seq<Event>, c: Coin)
    requires c != OMG && Inv(t) && ValidRun(Register(t, balances), es)
    ensures var u, t' := t.nextUserId, After(Register(t, balances), es);
            && u in t'.users
            && t'.users[u].Balance(c) as real
               == balances.Balance(c) as real
                  - Sum(t'.orders, OfferedBy(u, c))
                  + TradeSum(t'.archives, BoughtBy(u, c))
                  - TradeSum(t'.archives, SoldTakingBy(u, c))
                  - 2.0 * TradeSum(t'.archives, SoldRestingBy(u, c))
  {
    var u, start := t.nextUserId, Register(t, balances);
    RegisterKeepsInv(t, balances);
    forall id | id in t.orders ensures OfferedBy(u, c)(t.orders[id]) == 0.0 {
      assert RowOk(t, id);
    }
    SumOfNothing(t.orders, OfferedBy(u, c));
    StrangerTradedNothing(t.archives, t.users.Keys, u, c);
    RunKeepsAudit(start, es, u, c);
  }
}
