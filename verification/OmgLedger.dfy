/** Where the OMG is, over all serial runs: exact up to two roundings a command, and never far below zero. */
module OmgLedger {
  import opened Rounding
  import opened Market
  import opened Runs
  import opened Book
  import opened Sums
  import opened ItemLedger

  ghost function BidValue(): Order -> real {
    (o: Order) => if o.side == Buy then o.Cost(o.quantity) else 0.0
  }

  /** What a taker was paid by a resting buyer, whose bid had already been reserved once. */
  ghost function PaidToTakers(): (Order, Order) -> real {
    (r: Order, x: Order) => if x.side == Sell then r.Cost(Volume(r, x)) else 0.0
  }

  /** OMG held, plus OMG bid, plus OMG paid to takers who sold. */
  ghost function Money(t: Tables): real {
    Sum(t.users, Holding(OMG)) + Sum(t.orders, BidValue()) + TradeSum(t.archives, PaidToTakers())
  }

  ghost predicate WholePrices(orders: map<int, Order>) {
    forall id | id in orders :: Whole(orders[id].price)
  }

  // ---------- One leg at a time ----------

  /** Conversion to `int` moves a balance by less than one, and not at all when nothing is fractional. */
  lemma EarnDrift(u: User, amount: real)
    ensures -1.0 < u.Earn(amount).omg as real - (u.omg as real + amount) < 1.0
    ensures u.omg as real + amount >= 0.0 ==> u.Earn(amount).omg as real <= u.omg as real + amount
    ensures Whole(amount) ==> u.Earn(amount).omg as real == u.omg as real + amount
  {
    if Whole(amount) {
      TruncOfWhole(u.omg as real + amount, u.omg + amount.Floor);
    }
  }

  /** The OMG that both legs of a trade create together. */
  function LegsGain(u: User, v: User, taker: Order, resting: Order, n: int): real {
    TakerLeg(u, taker, resting, n).omg as real - u.omg as real
    + MakerLeg(v, taker, resting, n).omg as real - v.omg as real
  }

  /** The coins of an OMG trade cancel out, whichever way the legs are ordered. */
  lemma GainOfBuy(u: User, v: User, item: Coin, n: int, cost: real)
    ensures var gain := u.Bought(item, n, cost).omg as real - u.omg as real
                        + v.SoldResting(item, n, cost).omg as real - v.omg as real;
            && -2.0 < gain < 2.0
            && (u.omg as real >= cost ==> gain < 1.0)
            && (Whole(cost) ==> gain == 0.0)
  {
    if Whole(cost) {
      WholeWitness(-cost, -cost.Floor);
    }
    EarnDrift(u, -cost);
    EarnDrift(v, cost);
  }

  lemma GainOfSell(u: User, v: User, item: Coin, n: int, cost: real)
    ensures var gain := u.SoldTaking(item, n, cost).omg as real - u.omg as real
                        + v.Bought(item, n, cost).omg as real - v.omg as real;
            && -2.0 < gain < 2.0
            && (Whole(cost) ==> gain == 0.0)
  {
    if Whole(cost) {
      WholeWitness(-cost, -cost.Floor);
    }
    EarnDrift(u.Credit(item, -n), cost);
    EarnDrift(v, -cost);
  }

  lemma LegsDrift(u: User, v: User, taker: Order, resting: Order, n: int)
    requires Crosses(resting, taker) && resting.price >= 0.0 && 0 <= n <= taker.quantity && taker.WellFormed()
    requires Funded(u, taker)
    ensures -2.0 < LegsGain(u, v, taker, resting, n) < 2.0
    ensures taker.side == Buy ==> LegsGain(u, v, taker, resting, n) < 1.0
    ensures Whole(resting.price) ==> LegsGain(u, v, taker, resting, n) == 0.0
  {
    var cost := resting.Cost(n);
    if Whole(resting.price) {
      WholeTimes(n, resting.price);
    }
    if taker.side == Buy {
      TimesMonotone(n, resting.price, taker.price);
      TimesSplit(taker.quantity, n, taker.price);
      TimesNonNegative(taker.quantity - n, taker.price);
      GainOfBuy(u, v, taker.item, n, cost);
    } else {
      GainOfSell(u, v, taker.item, n, cost);
    }
  }

  // ---------- One command ----------

  /** A bid is worth less by what is filled of it; an offer is worth no money at all. */
  lemma BidFilled(row: Order, n: int)
    requires 0 <= n <= row.quantity
    ensures BidValue()(row) - (if n == row.quantity then 0.0 else BidValue()(row.(quantity := row.quantity - n)))
         == if row.side == Buy then row.Cost(n) else 0.0
  {
    TimesSplit(row.quantity, n, row.price);
    var less := row.(quantity := row.quantity - n);
    assert less.Cost(less.quantity) == row.Cost(row.quantity) - row.Cost(n);
  }

  lemma SettleMoney(t: Tables, ord: Order, id: int, stamp: int)
    requires TableInv(t) && ord.WellFormed() && ord.owner in t.users && Funded(t.users[ord.owner], ord)
    requires Eligible(t.orders, ord, id)
    ensures t.orders[id].owner in t.users
    ensures var gain := Money(Settle(t, ord, id, stamp)) - Money(t);
            && -2.0 < gain < 2.0
            && (ord.side == Buy ==> gain < 1.0)
            && (Whole(t.orders[id].price) ==> gain == 0.0)
  {
    assert RowOk(t, id);
    var row := t.orders[id];
    var n := Volume(row, ord);
    SettleSums(t, ord, id, stamp, Holding(OMG), BidValue(), PaidToTakers());
    LegsDrift(t.users[ord.owner], t.users[row.owner], ord, row, n);
    BidFilled(row, n);
  }

  lemma RestMoney(t: Tables, ord: Order, posted: int)
    requires TableInv(t) && ord.WellFormed() && ord.CanRest() && ord.owner in t.users
    ensures var gain := Money(Rest(t, ord, posted)) - Money(t);
            && 0.0 <= gain < 1.0
            && (ord.side == Sell || Whole(ord.price) ==> gain == 0.0)
  {
    RestSums(t, ord, posted, Holding(OMG), BidValue());
    var value := ord.Cost(ord.quantity);
    TimesNonNegative(ord.quantity, ord.price);
    if Whole(ord.price) {
      WholeTimes(ord.quantity, ord.price);
    }
    var u := t.users[ord.owner];
    assert ord.side == Buy ==> u.Reserve(ord).omg == u.omg - Trunc(value);
    assert BidValue()(ord.(createdAt := posted)) == BidValue()(ord);
  }

  lemma PlaceMoney(t: Tables, ord: Order, pick: int, stamp: int, posted: int)
    requires Inv(t) && ord.WellFormed() && ValidPick(t.orders, ord, pick) && t.clock <= stamp <= posted
    ensures var gain := Money(Place(t, ord, pick, stamp, posted).0) - Money(t);
            && -2.0 < gain < 2.0
            && (WholePrices(t.orders) && Whole(ord.price) ==> gain == 0.0)
  {
    if ord.owner in t.users && Funded(t.users[ord.owner], ord) {
      if pick == NO_MATCH {
        if ord.CanRest() {
          RestMoney(t, ord, posted);
        }
      } else {
        SettleMoney(t, ord, pick, stamp);
        SettleKeepsInv(t, ord, pick, stamp);
        var left := Leftover(t.orders, ord, pick);
        if left.quantity != 0 && left.CanRest() {
          RestMoney(Settle(t, ord, pick, stamp), left, posted);
        }
      }
    }
  }

  lemma CancelMoney(t: Tables, id: int, userId: int)
    requires Inv(t)
    ensures var gain := Money(Cancel(t, id, userId).0) - Money(t);
            && -1.0 < gain < 1.0
            && (WholePrices(t.orders) ==> gain == 0.0)
  {
    if id in t.orders && t.orders[id].owner == userId {
      var row := t.orders[id];
      CancelSums(t, id, Holding(OMG), BidValue());
      assert RowOk(t, id);
      EarnDrift(t.users[userId], row.Cost(row.quantity));
      if WholePrices(t.orders) {
        WholeTimes(row.quantity, row.price);
      }
    }
  }

  /** Every rounding a command makes is within two OMG, and there is none at whole prices. */
  lemma StepMoney(t: Tables, e: Event)
    requires Inv(t) && Enabled(t, e)
    ensures var gain := Money(Step(t, e)) - Money(t) - Deposit(e, OMG) as real;
            && -2.0 < gain < 2.0
            && (e.Registration? ==> gain == 0.0)
            && (WholePrices(t.orders) && (e.Submission? ==> Whole(e.ord.price)) ==> gain == 0.0)
  {
    match e
    case Registration(balances) => RegisterSums(t, balances, Holding(OMG));
    case Submission(ord, pick, stamp, posted) => PlaceMoney(t, ord, pick, stamp, posted);
    case Cancellation(orderId, userId) => CancelMoney(t, orderId, userId);
  }

  // ---------- Runs ----------

  function Commands(es: seq<Event>): (n: nat)
    ensures n <= |es|
  {
    if es == [] then 0 else (if es[0].Registration? then 0 else 1) + Commands(es[1..])
  }

  /** After n commands the ledger is off by at most 2n. */
  lemma {:induction false} RunMoney(t: Tables, es: seq<Event>)
    requires Inv(t) && ValidRun(t, es)
    ensures var off := Money(After(t, es)) - Money(t) - Deposits(es, OMG) as real;
            -2.0 * Commands(es) as real <= off <= 2.0 * Commands(es) as real
    decreases |es|
  {
    if es != [] {
      StepMoney(t, es[0]);
      StepKeepsInv(t, es[0]);
      RunMoney(Step(t, es[0]), es[1..]);
    }
  }

  lemma StepKeepsWholePrices(t: Tables, e: Event)
    requires Inv(t) && Enabled(t, e) && WholePrices(t.orders) && (e.Submission? ==> Whole(e.ord.price))
    ensures WholePrices(Step(t, e).orders)
  {
  }

  /** At whole prices the ledger is exact. */
  lemma {:induction false} RunMoneyExact(t: Tables, es: seq<Event>)
    requires Inv(t) && ValidRun(t, es) && WholePrices(t.orders)
    requires forall e | e in es && e.Submission? :: Whole(e.ord.price)
    ensures Money(After(t, es)) == Money(t) + Deposits(es, OMG) as real
    decreases |es|
  {
    if es != [] {
      StepMoney(t, es[0]);
      StepKeepsInv(t, es[0]);
      StepKeepsWholePrices(t, es[0]);
      RunMoneyExact(Step(t, es[0]), es[1..]);
    }
  }

  lemma MoneyFromEmpty(es: seq<Event>)
    requires ValidRun(EMPTY, es)
    ensures var off := Money(After(EMPTY, es)) - Deposits(es, OMG) as real;
            && -2.0 * Commands(es) as real <= off <= 2.0 * Commands(es) as real
            && ((forall e | e in es && e.Submission? :: Whole(e.ord.price)) ==> off == 0.0)
  {
    RunMoney(EMPTY, es);
    if forall e | e in es && e.Submission? :: Whole(e.ord.price) {
      RunMoneyExact(EMPTY, es);
    }
  }

  // ---------- The money one would expect to stay the same ----------

  ghost function HeldAndBid(t: Tables): real {
    Sum(t.users, Holding(OMG)) + Sum(t.orders, BidValue())
  }

  /** What a resting buyer, who paid when the bid was posted, pays again when a seller fills it. */
  ghost function SecondPayment(t: Tables, e: Event): real
    requires Inv(t) && Enabled(t, e)
  {
    if e.Submission? && e.ord.side == Sell && FillOf(t, e, e.pick) > 0
    then t.orders[e.pick].Cost(FillOf(t, e, e.pick))
    else 0.0
  }

  /** The archive shows the second payment. */
  lemma SecondPaymentArchived(t: Tables, e: Event)
    requires Inv(t) && Enabled(t, e)
    ensures TradeSum(Step(t, e).archives, PaidToTakers()) == TradeSum(t.archives, PaidToTakers()) + SecondPayment(t, e)
  {
    StepArchives(t, e);
    if e.Submission? && FillOf(t, e, e.pick) > 0 {
      var row, taken := t.orders[e.pick], e.ord.(createdAt := e.stamp);
      TradeSumAppend(t.archives, row, taken, PaidToTakers());
      assert Volume(row, taken) == FillOf(t, e, e.pick);
    } else {
      assert Step(t, e).archives == t.archives;
    }
  }

  /** OMG held and bid falls by the second payment, within the rounding of one command, exactly at whole prices. */
  lemma MoneyFallsBySecondPayment(t: Tables, e: Event)
    requires Inv(t) && Enabled(t, e)
    ensures var off := HeldAndBid(Step(t, e)) - HeldAndBid(t) - Deposit(e, OMG) as real + SecondPayment(t, e);
            && -2.0 < off < 2.0
            && (WholePrices(t.orders) && (e.Submission? ==> Whole(e.ord.price)) ==> off == 0.0)
  {
    StepMoney(t, e);
    SecondPaymentArchived(t, e);
  }

  lemma {:induction false} TimesPositive(n: int, p: real)
    requires n > 0 && p > 0.0
    ensures Times(n, p) > 0.0
  {
    if n > 1 {
      TimesPositive(n - 1, p);
    }
  }

  lemma {:induction false} TimesZero(n: int)
    requires n >= 0
    ensures Times(n, 0.0) == 0.0
  {
    if n > 0 {
      TimesZero(n - 1);
    }
  }

  /** At whole prices OMG held and bid stays the same exactly when no seller fills a bid at a price above zero. */
  lemma MoneyConservedExactlyWhen(t: Tables, e: Event)
    requires Inv(t) && Enabled(t, e)
    requires WholePrices(t.orders) && (e.Submission? ==> Whole(e.ord.price))
    ensures HeldAndBid(Step(t, e)) == HeldAndBid(t) + Deposit(e, OMG) as real
            <==> !(e.Submission? && e.ord.side == Sell && FillOf(t, e, e.pick) > 0 && t.orders[e.pick].price > 0.0)
  {
    MoneyFallsBySecondPayment(t, e);
    if e.Submission? && e.ord.side == Sell && FillOf(t, e, e.pick) > 0 {
      assert RowOk(t, e.pick);
      if t.orders[e.pick].price > 0.0 {
        TimesPositive(FillOf(t, e, e.pick), t.orders[e.pick].price);
      } else {
        TimesZero(FillOf(t, e, e.pick));
      }
    }
  }

  // ---------- The same at any price, to the fraction ----------

  /** What a balance gains by a receipt, and loses by a payment. */
  function Receipt(omg: int, amount: real): int {
    if omg as real + amount >= 0.0 then Trunc(amount) else Ceil(amount)
  }

  function Payment(omg: int, amount: real): int {
    if omg as real - amount >= 0.0 then Ceil(amount) else Trunc(amount)
  }

  /** What one trade changes: the roundings of both sides and, for a bid that is filled, its cost. */
  ghost function TradeMoves(t: Tables, ord: Order, id: int): real
    requires ord.owner in t.users && id in t.orders && t.orders[id].owner in t.users
  {
    var row := t.orders[id];
    var n := Volume(row, ord);
    var cost, u, v := row.Cost(n), t.users[ord.owner].omg, t.users[row.owner].omg;
    if ord.side == Buy then (Receipt(v, cost) - Ceil(cost)) as real
    else (Receipt(u - CoinsOfOmg(ord.item, n), cost) - Payment(v, cost)) as real - cost
  }

  /** What posting drops: the fraction that is bid and not paid. */
  function RestMoves(ord: Order): real {
    var value := ord.Cost(ord.quantity);
    if ord.side == Buy then value - Trunc(value) as real else 0.0
  }

  /** What a command changes, from the state before it. */
  ghost function MoneyMoved(t: Tables, e: Event): real
    requires Inv(t) && Enabled(t, e)
  {
    match e
    case Registration(balances) => balances.omg as real
    case Submission(ord, pick, _, _) =>
      if ord.owner !in t.users || !Funded(t.users[ord.owner], ord) then 0.0
      else if pick == NO_MATCH then RestMoves(ord)
      else
        assert RowOk(t, pick);
        TradeMoves(t, ord, pick) + RestMoves(Leftover(t.orders, ord, pick))
    case Cancellation(id, userId) =>
      if id !in t.orders || t.orders[id].owner != userId || t.orders[id].side == Sell then 0.0
      else
        assert RowOk(t, id);
        var value := t.orders[id].Cost(t.orders[id].quantity);
        Receipt(t.users[userId].omg, value) as real - value
  }

  lemma TakerLegMoves(u: User, ord: Order, row: Order, n: int)
    requires ord.WellFormed() && row.WellFormed() && Crosses(row, ord) && Funded(u, ord) && 0 <= n <= ord.quantity
    ensures var k, cost := CoinsOfOmg(ord.item, n), row.Cost(n);
            TakerLeg(u, ord, row, n).omg - u.omg
            == if ord.side == Buy then k - Ceil(cost) else Receipt(u.omg - k, cost) - k
  {
    var cost := row.Cost(n);
    TimesNonNegative(n, row.price);
    if ord.side == Buy {
      TimesMonotone(n, row.price, ord.price);
      TimesSplit(ord.quantity, n, ord.price);
      TimesNonNegative(ord.quantity - n, ord.price);
      BuyerPays(u, ord.item, n, cost);
    } else {
      RoundedReceipt(u.Credit(ord.item, -n).omg, cost);
    }
  }

  lemma MakerLegMoves(v: User, ord: Order, row: Order, n: int)
    requires row.WellFormed() && Crosses(row, ord) && 0 <= n
    ensures var k, cost := CoinsOfOmg(ord.item, n), row.Cost(n);
            MakerLeg(v, ord, row, n).omg - v.omg
            == if ord.side == Buy then Receipt(v.omg, cost) - k else k - Payment(v.omg, cost)
  {
    var cost := row.Cost(n);
    TimesNonNegative(n, row.price);
    if ord.side == Buy {
      RoundedReceipt(v.omg, cost);
    } else {
      BuyerPays(v, row.item, n, cost);
    }
  }

  lemma TradeMovesMoney(t: Tables, ord: Order, id: int, stamp: int)
    requires Inv(t) && ord.WellFormed() && ord.owner in t.users && Funded(t.users[ord.owner], ord)
    requires Eligible(t.orders, ord, id)
    ensures t.orders[id].owner in t.users
    ensures HeldAndBid(Settle(t, ord, id, stamp)) == HeldAndBid(t) + TradeMoves(t, ord, id)
  {
    assert RowOk(t, id);
    var row := t.orders[id];
    TakerLegMoves(t.users[ord.owner], ord, row, Volume(row, ord));
    MakerLegMoves(t.users[row.owner], ord, row, Volume(row, ord));
    SettleSums(t, ord, id, stamp, Holding(OMG), BidValue(), PaidToTakers());
    BidFilled(row, Volume(row, ord));
  }

  lemma RestMovesMoney(t: Tables, ord: Order, posted: int)
    requires TableInv(t) && ord.CanRest() && ord.owner in t.users
    ensures HeldAndBid(Rest(t, ord, posted)) == HeldAndBid(t) + RestMoves(ord)
  {
    RestSums(t, ord, posted, Holding(OMG), BidValue());
    assert BidValue()(ord.(createdAt := posted)) == BidValue()(ord);
  }

  /** Nothing left, or nothing that may rest, drops nothing. */
  lemma NothingRests(left: Order)
    requires left.quantity == 0 || !left.CanRest()
    ensures RestMoves(left) == 0.0
  {
    assert left.quantity == 0 ==> left.Cost(0) == 0.0;
    TruncOfWhole(0.0, 0);
  }

  lemma PlaceMovesMoney(t: Tables, ord: Order, pick: int, stamp: int, posted: int)
    requires Inv(t) && ord.WellFormed() && ValidPick(t.orders, ord, pick) && t.clock <= stamp <= posted
    ensures HeldAndBid(Place(t, ord, pick, stamp, posted).0)
         == HeldAndBid(t) + MoneyMoved(t, Submission(ord, pick, stamp, posted))
  {
    if ord.owner in t.users && Funded(t.users[ord.owner], ord) {
      if pick == NO_MATCH {
        if ord.CanRest() {
          RestMovesMoney(t, ord, posted);
        }
      } else {
        TradeMovesMoney(t, ord, pick, stamp);
        SettleKeepsInv(t, ord, pick, stamp);
        var left := Leftover(t.orders, ord, pick);
        if left.quantity != 0 && left.CanRest() {
          RestMovesMoney(Settle(t, ord, pick, stamp), left, posted);
        } else {
          NothingRests(left);
        }
      }
    }
  }

  lemma RefundMovesOmg(u: User, row: Order)
    requires row.WellFormed() && (row.side == Sell ==> row.item != OMG)
    ensures u.Refund(row).omg - u.omg == if row.side == Buy then Receipt(u.omg, row.Cost(row.quantity)) else 0
  {
    TimesNonNegative(row.quantity, row.price);
    RoundedReceipt(u.omg, row.Cost(row.quantity));
  }

  lemma CancelMovesMoney(t: Tables, id: int, userId: int)
    requires Inv(t)
    ensures HeldAndBid(Cancel(t, id, userId).0) == HeldAndBid(t) + MoneyMoved(t, Cancellation(id, userId))
  {
    if id in t.orders && t.orders[id].owner == userId {
      assert RowOk(t, id);
      RefundMovesOmg(t.users[userId], t.orders[id]);
      CancelSums(t, id, Holding(OMG), BidValue());
    }
  }

  /**
   * At any price OMG held and bid moves by exactly this: the roundings of the two sides, the fraction
   * dropped from a bid, and the cost of a bid that is filled.
   */
  lemma MoneyMovesExactly(t: Tables, e: Event)
    requires Inv(t) && Enabled(t, e)
    ensures HeldAndBid(Step(t, e)) == HeldAndBid(t) + MoneyMoved(t, e)
  {
    match e
    case Registration(balances) => RegisterSums(t, balances, Holding(OMG));
    case Submission(ord, pick, stamp, posted) => PlaceMovesMoney(t, ord, pick, stamp, posted);
    case Cancellation(orderId, userId) => CancelMovesMoney(t, orderId, userId);
  }
}
