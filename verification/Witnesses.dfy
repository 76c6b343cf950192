/**
 * Runs of two users with the balances the server gives everyone, in which something one might expect
 * fails. Each starts from empty tables.
 */
module Witnesses {
  import opened Rounding
  import opened Market
  import opened Runs
  import opened Book
  import opened Sums
  import opened ItemLedger
  import opened OmgLedger
  import opened Clients
  import opened Interleaving
  import opened Overlap
  import opened Passing

  // What a new user gets.
  const NEWCOMER := User(10000, 200, 50, 75)

  const JOINED := [Registration(NEWCOMER), Registration(NEWCOMER)]
  const BOTH_JOINED := Tables(map[1 := NEWCOMER, 2 := NEWCOMER], map[], [], 3, 1, 0)

  /** All at time zero. */
  function Posts(ord: Order): Event {
    Submission(ord, NO_MATCH, 0, 0)
  }

  function Meets(ord: Order, id: int): Event {
    Submission(ord, id, 0, 0)
  }

  ghost predicate Reaches(es: seq<Event>, t: Tables) {
    ValidRun(EMPTY, es) && After(EMPTY, es) == t && Inv(t)
  }

  lemma {:induction false} RunAppend(t: Tables, es: seq<Event>, e: Event)
    requires Inv(t) && ValidRun(t, es) && Enabled(After(t, es), e)
    ensures Inv(After(t, es)) && ValidRun(t, es + [e]) && After(t, es + [e]) == Step(After(t, es), e)
    decreases |es|
  {
    if es == [] {
      assert [e][1..] == [];
    } else {
      StepKeepsInv(t, es[0]);
      RunAppend(Step(t, es[0]), es[1..], e);
      assert (es + [e])[1..] == es[1..] + [e];
    }
  }

  /** One more command. */
  lemma ReachesNext(es: seq<Event>, t: Tables, e: Event)
    requires Reaches(es, t) && Enabled(t, e)
    ensures Reaches(es + [e], Step(t, e))
  {
    RunAppend(EMPTY, es, e);
    StepKeepsInv(t, e);
  }

  lemma BothJoin()
    ensures Reaches(JOINED, BOTH_JOINED)
  {
    var e := Registration(NEWCOMER);
    assert Reaches([], EMPTY);
    ReachesNext([], EMPTY, e);
    var t := Register(EMPTY, NEWCOMER);
    ReachesNext([] + [e], t, e);
    assert ([] + [e]) + [e] == JOINED;
    assert Register(t, NEWCOMER) == BOTH_JOINED;
  }

  /** An order nobody in the book can meet is posted. */
  lemma ReachesPost(es: seq<Event>, t: Tables, ord: Order)
    requires Reaches(es, t) && t.clock == 0 && ord.WellFormed() && ord.CanRest()
    requires ord.owner in t.users && Funded(t.users[ord.owner], ord)
    requires forall j | j in t.orders :: !Eligible(t.orders, ord, j)
    ensures Enabled(t, Posts(ord)) && Reaches(es + [Posts(ord)], Rest(t, ord, 0))
  {
    ReachesNext(es, t, Posts(ord));
  }

  lemma TruncIs(x: real, n: int)
    requires if x >= 0.0 then n as real <= x < n as real + 1.0 else n as real - 1.0 < x <= n as real
    ensures Trunc(x) == n
  {
    var k := Trunc(x);
    assert (k - 1) as real < n as real < (k + 1) as real;
  }

  /** One order of user 1 in the book, and nothing else. */
  lemma OneOrder(ord: Order)
    requires ord.WellFormed() && ord.CanRest() && ord.owner == 1 && ord.createdAt == 0 && Funded(NEWCOMER, ord)
    ensures Reaches(JOINED + [Posts(ord)], Rest(BOTH_JOINED, ord, 0))
    ensures Rest(BOTH_JOINED, ord, 0).orders == map[1 := ord]
    ensures Rest(BOTH_JOINED, ord, 0).users == map[1 := NEWCOMER.Reserve(ord), 2 := NEWCOMER]
  {
    BothJoin();
    ReachesPost(JOINED, BOTH_JOINED, ord);
  }

  // ---------- User 1 posts an order and user 2 meets it ----------

  predicate CanPair(ord: Order, taker: Order) {
    && ord.WellFormed() && ord.CanRest() && ord.owner == 1 && ord.createdAt == 0 && Funded(NEWCOMER, ord)
    && taker.WellFormed() && taker.owner == 2 && taker.createdAt == 0 && Funded(NEWCOMER, taker)
    && Crosses(ord, taker)
  }

  function Pair(ord: Order, taker: Order): seq<Event> {
    JOINED + [Posts(ord)] + [Meets(taker, 1)]
  }

  lemma PairReached(ord: Order, taker: Order)
    requires CanPair(ord, taker)
    ensures var t := Rest(BOTH_JOINED, ord, 0);
            && Reaches(JOINED + [Posts(ord)], t) && Enabled(t, Meets(taker, 1))
            && Reaches(Pair(ord, taker), Step(t, Meets(taker, 1)))
            && FillOf(t, Meets(taker, 1), 1) == Volume(ord, taker)
    ensures After(EMPTY, Pair(ord, taker)).archives == [ord, taker]
  {
    OneOrder(ord);
    var t := Rest(BOTH_JOINED, ord, 0);
    assert Oldest(t.orders, taker, 1);
    ReachesNext(JOINED + [Posts(ord)], t, Meets(taker, 1));
    StepArchives(t, Meets(taker, 1));
  }

  lemma OneTradeSum(archives: seq<Order>, ord: Order, taker: Order, f: (Order, Order) -> real)
    requires archives == [ord, taker]
    ensures TradeSum(archives, f) == f(ord, taker)
  {
    TradeSumAppend([], ord, taker, f);
    assert [] + [ord, taker] == archives;
  }

  // ---------- Coins and money that disappear ----------

  lemma PairLosesCoins(ord: Order, taker: Order)
    requires CanPair(ord, taker) && taker.side == Buy && taker.item != OMG
    ensures ValidRun(EMPTY, Pair(ord, taker))
    ensures var es, c := Pair(ord, taker), taker.item;
            var t := After(EMPTY, es);
            Sum(t.users, Holding(c)) + Sum(t.orders, Offered(c))
            == Deposits(es, c) as real - Volume(ord, taker) as real
  {
    PairReached(ord, taker);
    var es := Pair(ord, taker);
    OneTradeSum(After(EMPTY, es).archives, ord, taker, TakenByBuyers(taker.item));
    LedgerFromEmpty(es, taker.item);
  }

  const OFFER := Order(DOGE, Sell, 1, 10.0, 1, 0)
  const TAKING_BUY := Order(DOGE, Buy, 1, 10.0, 2, 0)

  /** User 1 offers one DOGE and user 2 buys it: of the coins registered, one is nowhere. */
  lemma CoinsCanVanish()
    ensures ValidRun(EMPTY, Pair(OFFER, TAKING_BUY))
    ensures var t := After(EMPTY, Pair(OFFER, TAKING_BUY));
            Sum(t.users, Holding(DOGE)) + Sum(t.orders, Offered(DOGE))
            == Deposits(Pair(OFFER, TAKING_BUY), DOGE) as real - 1.0
  {
    assert TAKING_BUY.Cost(1) == 10.0;
    PairLosesCoins(OFFER, TAKING_BUY);
  }

  lemma PairLosesMoney(ord: Order, taker: Order)
    requires CanPair(ord, taker) && taker.side == Sell && Whole(ord.price) && Whole(taker.price)
    ensures ValidRun(EMPTY, Pair(ord, taker))
    ensures var es := Pair(ord, taker);
            HeldAndBid(After(EMPTY, es)) == Deposits(es, OMG) as real - ord.Cost(Volume(ord, taker))
  {
    PairReached(ord, taker);
    var es := Pair(ord, taker);
    OneTradeSum(After(EMPTY, es).archives, ord, taker, PaidToTakers());
    MoneyFromEmpty(es);
  }

  const BID := Order(DOGE, Buy, 1, 10.0, 1, 0)
  const TAKING_SELL := Order(DOGE, Sell, 1, 10.0, 2, 0)

  /** User 1 bids ten OMG for one DOGE and user 2 sells: of the money registered, ten are nowhere. */
  lemma MoneyCanVanish()
    ensures ValidRun(EMPTY, Pair(BID, TAKING_SELL))
    ensures HeldAndBid(After(EMPTY, Pair(BID, TAKING_SELL))) == Deposits(Pair(BID, TAKING_SELL), OMG) as real - 10.0
  {
    assert BID.Cost(1) == 10.0;
    TruncIs(10.0, 10);
    assert Whole(10.0);
    PairLosesMoney(BID, TAKING_SELL);
  }

  // ---------- A failure that leaves a trade ----------

  lemma PairFails(ord: Order, taker: Order)
    requires CanPair(ord, taker) && !taker.CanRest() && taker.quantity > ord.quantity
    ensures var t := Rest(BOTH_JOINED, ord, 0);
            && Reaches(JOINED + [Posts(ord)], t) && ValidPick(t.orders, taker, 1)
            && Place(t, taker, 1, 0, 0).1 == FAILED
            && Place(t, taker, 1, 0, 0).0 != t && Place(t, taker, 1, 0, 0).0.archives == [ord, taker]
  {
    PairReached(ord, taker);
    AllOrNothing(Rest(BOTH_JOINED, ord, 0), taker, 1, 0, 0);
  }

  const OMG_BID := Order(OMG, Buy, 1, 1.0, 1, 0)
  const OMG_SELL := Order(OMG, Sell, 2, 1.0, 2, 0)

  /** User 1 bids for one OMG and user 2 sells two: the command fails and the trade of one stays. */
  lemma FailureCanLeaveTrade()
    ensures var t := Rest(BOTH_JOINED, OMG_BID, 0);
            && Reaches(JOINED + [Posts(OMG_BID)], t) && ValidPick(t.orders, OMG_SELL, 1)
            && Place(t, OMG_SELL, 1, 0, 0).1 == FAILED
            && Place(t, OMG_SELL, 1, 0, 0).0 != t && Place(t, OMG_SELL, 1, 0, 0).0.archives == [OMG_BID, OMG_SELL]
  {
    assert OMG_BID.Cost(1) == 1.0;
    PairFails(OMG_BID, OMG_SELL);
  }

  // ---------- A crossed book ----------

  /** User 1 posts an offer twice and user 2 buys more than one of them. */
  function Triple(ord: Order, taker: Order): seq<Event> {
    JOINED + [Posts(ord)] + [Posts(ord)] + [Meets(taker, 1)]
  }

  /** Two equal offers of user 1, and nothing else. */
  lemma TwoOffers(ord: Order)
    requires ord.WellFormed() && ord.side == Sell && ord.item != OMG && ord.owner == 1 && ord.createdAt == 0
    requires NEWCOMER.Balance(ord.item) >= 2 * ord.quantity
    ensures var t := Rest(Rest(BOTH_JOINED, ord, 0), ord, 0);
            && Reaches(JOINED + [Posts(ord)] + [Posts(ord)], t)
            && t.orders == map[1 := ord, 2 := ord] && t.users.Keys == {1, 2} && t.users[2] == NEWCOMER && t.clock == 0
  {
    OneOrder(ord);
    var t := Rest(BOTH_JOINED, ord, 0);
    ReachesPost(JOINED + [Posts(ord)], t, ord);
  }

  lemma TripleCrosses(ord: Order, taker: Order)
    requires ord.side == Sell && CanPair(ord, taker) && NEWCOMER.Balance(ord.item) >= 2 * ord.quantity
    requires taker.quantity > ord.quantity
    ensures ValidRun(EMPTY, Triple(ord, taker)) && !Uncrossed(After(EMPTY, Triple(ord, taker)).orders)
  {
    TwoOffers(ord);
    var t, e := Rest(Rest(BOTH_JOINED, ord, 0), ord, 0), Meets(taker, 1);
    assert Oldest(t.orders, taker, 1);
    assert Uncrossed(t.orders);
    assert Eligible(t.orders, taker, 2);
    UncrossedExactlyWhen(t, e);
    ReachesNext(JOINED + [Posts(ord)] + [Posts(ord)], t, e);
  }

  const BIG_BUY := Order(DOGE, Buy, 3, 10.0, 2, 0)

  /** User 1 offers one DOGE twice and user 2 buys three: what is left crosses the second offer. */
  lemma BookCanBeCrossed()
    ensures ValidRun(EMPTY, Triple(OFFER, BIG_BUY)) && !Uncrossed(After(EMPTY, Triple(OFFER, BIG_BUY)).orders)
  {
    TimesIsProduct(3, 10.0);
    assert BIG_BUY.Cost(3) == 30.0;
    TripleCrosses(OFFER, BIG_BUY);
  }

  // ---------- A refund that exceeds the reservation ----------

  /** User 1 bids for one coin, then for another at a lower price; user 2 meets the first bid. */
  function TwoBids(dear: Order, cheap: Order, taker: Order): seq<Event> {
    JOINED + [Posts(dear)] + [Posts(cheap)] + [Meets(taker, 1)]
  }

  predicate CanBidTwice(dear: Order, cheap: Order, taker: Order) {
    && CanPair(dear, taker) && dear.side == Buy && dear.item != OMG && taker.quantity == dear.quantity == 1
    && cheap.WellFormed() && cheap.side == Buy && cheap.owner == 1 && cheap.createdAt == 0 && cheap.quantity == 1
    && dear.item == cheap.item && cheap.price < taker.price && Funded(NEWCOMER.Reserve(dear), cheap)
  }

  lemma TwoBidsReached(dear: Order, cheap: Order, taker: Order)
    requires CanBidTwice(dear, cheap, taker)
    ensures var t1, t2 := Rest(BOTH_JOINED, dear, 0), Rest(Rest(BOTH_JOINED, dear, 0), cheap, 0);
            && Reaches(JOINED + [Posts(dear)], t1) && Reaches(JOINED + [Posts(dear)] + [Posts(cheap)], t2)
            && t2.orders == map[1 := dear, 2 := cheap]
            && t2.users == map[1 := NEWCOMER.Reserve(dear).Reserve(cheap), 2 := NEWCOMER]
            && Enabled(t2, Meets(taker, 1)) && Reaches(TwoBids(dear, cheap, taker), Step(t2, Meets(taker, 1)))
  {
    OneOrder(dear);
    var t1 := Rest(BOTH_JOINED, dear, 0);
    ReachesPost(JOINED + [Posts(dear)], t1, cheap);
    var t2 := Rest(t1, cheap, 0);
    assert t2.orders == map[1 := dear, 2 := cheap];
    assert Oldest(t2.orders, taker, 1);
    ReachesNext(JOINED + [Posts(dear)] + [Posts(cheap)], t2, Meets(taker, 1));
  }

  /** The first of two bids is filled whole. */
  lemma FirstBidFilled(t: Tables, dear: Order, cheap: Order, taker: Order)
    requires Inv(t) && t.orders == map[1 := dear, 2 := cheap] && t.users.Keys == {1, 2}
    requires dear.owner == 1 && dear.side == Buy && taker.owner == 2 && taker.quantity == dear.quantity == 1
    requires Enabled(t, Meets(taker, 1)) && Funded(t.users[2], taker)
    ensures var t' := Step(t, Meets(taker, 1));
            && t'.orders == map[2 := cheap]
            && 1 in t'.users && t'.users[1] == t.users[1].Bought(dear.item, 1, dear.Cost(1))
  {
    assert Leftover(t.orders, taker, 1).quantity == 0;
    assert Step(t, Meets(taker, 1)) == Settle(t, taker, 1, 0);
    assert Fill(t.orders, 1, 1) == map[2 := cheap];
  }

  /** The tables before and after the cheap bid is posted, and after the dear one is met. */
  lemma TwoBidsLeave(dear: Order, cheap: Order, taker: Order) returns (t1: Tables, t2: Tables, t: Tables)
    requires CanBidTwice(dear, cheap, taker)
    ensures Reaches(JOINED + [Posts(dear)], t1) && Reaches(JOINED + [Posts(dear)] + [Posts(cheap)], t2)
    ensures Reaches(TwoBids(dear, cheap, taker), t)
    ensures 1 in t1.users && t1.users[1] == NEWCOMER.Reserve(dear)
    ensures 1 in t2.users && t2.users[1] == NEWCOMER.Reserve(dear).Reserve(cheap)
    ensures t.orders == map[2 := cheap] && 1 in t.users
    ensures t.users[1] == NEWCOMER.Reserve(dear).Reserve(cheap).Bought(dear.item, 1, dear.Cost(1))
  {
    TwoBidsReached(dear, cheap, taker);
    t1 := Rest(BOTH_JOINED, dear, 0);
    t2 := Rest(t1, cheap, 0);
    t := Step(t2, Meets(taker, 1));
    FirstBidFilled(t2, dear, cheap, taker);
  }

  /** The balances on the way, for one who starts with 10000. */
  lemma DearBalances(u: User, dear: Order, cheap: Order)
    requires u.omg == 10000 && dear.side == Buy && cheap.side == Buy && dear.item != OMG
    requires dear.quantity == cheap.quantity == 1 && dear.price == 9999.0 && cheap.price == 0.5
    ensures u.Reserve(dear).omg == u.Reserve(dear).Reserve(cheap).omg == 1
    ensures var v := u.Reserve(dear).Reserve(cheap).Bought(dear.item, 1, dear.Cost(1));
            v.omg == -9998 && v.Refund(cheap).omg == -9997
  {
    assert dear.Cost(1) == 9999.0 && cheap.Cost(1) == 0.5;
    TruncIs(9999.0, 9999);
    TruncIs(0.5, 0);
    TruncIs(-9998.0, -9998);
    TruncIs(-9997.5, -9997);
  }

  predicate DearTrio(dear: Order, cheap: Order, taker: Order) {
    && dear.price == taker.price == 9999.0 && cheap.price == 0.5
    && dear.quantity == cheap.quantity == taker.quantity == 1
    && dear.side == cheap.side == Buy && taker.side == Sell && dear.item == cheap.item == taker.item == DOGE
    && dear.owner == cheap.owner == 1 && taker.owner == 2
    && dear.createdAt == cheap.createdAt == taker.createdAt == 0
  }

  lemma DearTrioFunded(u: User, dear: Order, cheap: Order, taker: Order)
    requires u.omg == 10000 && u.doge >= 1 && DearTrio(dear, cheap, taker)
    ensures Funded(u, dear) && Funded(u, taker) && Funded(u.Reserve(dear), cheap)
  {
    DearBalances(u, dear, cheap);
    assert dear.Cost(1) == 9999.0 && cheap.Cost(1) == 0.5;
  }

  lemma DearTrioCanBid(dear: Order, cheap: Order, taker: Order)
    requires DearTrio(dear, cheap, taker)
    ensures CanBidTwice(dear, cheap, taker)
  {
    DearTrioFunded(NEWCOMER, dear, cheap, taker);
  }

  lemma CheapCancelled(t: Tables, cheap: Order, v: User)
    requires Inv(t) && t.orders == map[2 := cheap] && cheap.owner == 1 && 1 in t.users && t.users[1] == v
    ensures Cancel(t, 2, 1).1 == OK && Cancel(t, 2, 1).0.users[1] == v.Refund(cheap)
  {
  }

  lemma DearRefund(dear: Order, cheap: Order, taker: Order) returns (t1: Tables, t2: Tables, t: Tables)
    requires DearTrio(dear, cheap, taker)
    ensures Reaches(JOINED + [Posts(dear)], t1) && Reaches(JOINED + [Posts(dear)] + [Posts(cheap)], t2)
    ensures Reaches(TwoBids(dear, cheap, taker), t)
    ensures 1 in t1.users && 1 in t2.users && 1 in t.users && t1.users[1].omg == t2.users[1].omg
    ensures Cancel(t, 2, 1).1 == OK && Cancel(t, 2, 1).0.users[1].omg == t.users[1].omg + 1
  {
    DearTrioCanBid(dear, cheap, taker);
    t1, t2, t := TwoBidsLeave(dear, cheap, taker);
    DearBalances(NEWCOMER, dear, cheap);
    CheapCancelled(t, cheap, t.users[1]);
  }

  const DEAR_BID := Order(DOGE, Buy, 1, 9999.0, 1, 0)
  const CHEAP_BID := Order(DOGE, Buy, 1, 0.5, 1, 0)
  const DEAR_SELL := Order(DOGE, Sell, 1, 9999.0, 2, 0)

  /**
   * User 1 bids 9999 and then 0.5, and user 2 sells at 9999. Posting the bid of 0.5 took nothing, and
   * cancelling it after the sale pays out one OMG.
   */
  lemma RefundCanExceedReservation() returns (before: Tables, posted: Tables, t: Tables)
    ensures Reaches(JOINED + [Posts(DEAR_BID)], before)
    ensures Reaches(JOINED + [Posts(DEAR_BID)] + [Posts(CHEAP_BID)], posted)
    ensures Reaches(TwoBids(DEAR_BID, CHEAP_BID, DEAR_SELL), t)
    ensures 1 in before.users && 1 in posted.users && 1 in t.users
    ensures before.users[1].omg - posted.users[1].omg == 0
    ensures Cancel(t, 2, 1).1 == OK && Cancel(t, 2, 1).0.users[1].omg - t.users[1].omg == 1
  {
    before, posted, t := DearRefund(DEAR_BID, CHEAP_BID, DEAR_SELL);
  }

  // ---------- Schedules that are not serial ----------

  /** The world after a serial run of client 0 from the start of the server. */
  ghost function Serially(es: seq<Event>): World
    requires ValidRun(EMPTY, es)
  {
    Final(START, OneByOne(0, EMPTY, es))
  }

  lemma SeriallyReached(es: seq<Event>, t: Tables)
    requires Reaches(es, t)
    ensures ValidSchedule(START, OneByOne(0, EMPTY, es)) && WorldInv(Serially(es)) && Serially(es).t == t
    ensures forall i | i in Serially(es).clients :: Serially(es).clients[i].Done?
  {
    SerialRunIsSchedule(START, 0, es);
    WorldFromStart(OneByOne(0, EMPTY, es));
  }

  /** User 1 posts an offer and clients 1 and 2 cancel it at once. */
  lemma OfferCancelledTwice(ord: Order)
    requires ord.WellFormed() && ord.CanRest() && ord.side == Sell && ord.owner == 1 && ord.createdAt == 0
    requires Funded(NEWCOMER, ord)
    ensures var es := JOINED + [Posts(ord)];
            && ValidRun(EMPTY, es)
            && var actions := OneByOne(0, EMPTY, es) + TwoCancels(Serially(es), 1, 1, 1, 2);
            && ValidSchedule(START, actions)
            && Ledger(Final(START, actions).t, ord.item) == Deposits(es, ord.item) as real + ord.quantity as real
  {
    OneOrder(ord);
    var es := JOINED + [Posts(ord)];
    var t := Rest(BOTH_JOINED, ord, 0);
    SeriallyReached(es, t);
    InterleavingBreaksLedger(Serially(es), 1, 1, 2);
    ScheduleConcat(START, OneByOne(0, EMPTY, es), TwoCancels(Serially(es), 1, 1, 1, 2));
    LedgerFromEmpty(es, ord.item);
  }

  /** With one DOGE offered, there is one more DOGE than was registered. */
  lemma CoinsCanAppear()
    ensures var es := JOINED + [Posts(OFFER)];
            && ValidRun(EMPTY, es)
            && var actions := OneByOne(0, EMPTY, es) + TwoCancels(Serially(es), 1, 1, 1, 2);
            && ValidSchedule(START, actions)
            && Ledger(Final(START, actions).t, DOGE) == Deposits(es, DOGE) as real + 1.0
  {
    OfferCancelledTwice(OFFER);
  }

  /** User 1 posts an order and clients 1 and 2 of user 2 meet it in step. */
  lemma OrderFilledTwice(ord: Order, taker: Order)
    requires CanPair(ord, taker) && taker.quantity == ord.quantity
    ensures var es := JOINED + [Posts(ord)];
            && ValidRun(EMPTY, es)
            && var actions := OneByOne(0, EMPTY, es) + InStep(Serially(es), taker, 1, 1, 2);
            && ValidSchedule(START, actions)
            && var w := Final(START, actions);
            && 1 in w.clients && 2 in w.clients && w.clients[1] == w.clients[2] == Done(OK)
            && w.t.archives == [ord, ord, taker, taker] && !ArchiveInv(w.t.archives, w.t.users.Keys)
  {
    PairReached(ord, taker);
    var es := JOINED + [Posts(ord)];
    var t := Rest(BOTH_JOINED, ord, 0);
    SeriallyReached(es, t);
    assert Oldest(t.orders, taker, 1);
    InStepFillsTwice(Serially(es), taker, 1, 1, 2);
    ScheduleConcat(START, OneByOne(0, EMPTY, es), InStep(Serially(es), taker, 1, 1, 2));
  }

  /** An offer of one DOGE is sold twice, and the archive is no longer a sequence of trades. */
  lemma OfferCanBeSoldTwice()
    ensures var es := JOINED + [Posts(OFFER)];
            && ValidRun(EMPTY, es)
            && var actions := OneByOne(0, EMPTY, es) + InStep(Serially(es), TAKING_BUY, 1, 1, 2);
            && ValidSchedule(START, actions)
            && var w := Final(START, actions);
            && 1 in w.clients && 2 in w.clients && w.clients[1] == w.clients[2] == Done(OK)
            && w.t.archives == [OFFER, OFFER, TAKING_BUY, TAKING_BUY] && !ArchiveInv(w.t.archives, w.t.users.Keys)
  {
    assert TAKING_BUY.Cost(1) == 10.0;
    OrderFilledTwice(OFFER, TAKING_BUY);
  }

  /** Two orders that cross, each sent while the other is under way. */
  lemma OrdersPass(a: Order, b: Order)
    requires CanPair(a, b) && b.CanRest()
    ensures ValidRun(EMPTY, JOINED)
    ensures var w := Serially(JOINED);
            var actions := PassEachOther(w, a, b, 1, 2);
            && ValidSchedule(START, OneByOne(0, EMPTY, JOINED)) && ValidSchedule(w, actions) && AlwaysApart(w, actions)
            && Final(w, actions).t.archives == [] && !Uncrossed(Final(w, actions).t.orders)
  {
    BothJoin();
    SeriallyReached(JOINED, BOTH_JOINED);
    FundedIsReservable(NEWCOMER, a);
    FundedIsReservable(NEWCOMER, b);
    ApartOrdersPass(Serially(JOINED), a, b, 1, 2);
  }

  /** An offer and a bid of one DOGE at the same price both rest, and no trade is made. */
  lemma OrdersCanPass()
    ensures ValidRun(EMPTY, JOINED)
    ensures var w := Serially(JOINED);
            var actions := PassEachOther(w, OFFER, TAKING_BUY, 1, 2);
            && ValidSchedule(START, OneByOne(0, EMPTY, JOINED)) && ValidSchedule(w, actions) && AlwaysApart(w, actions)
            && Final(w, actions).t.archives == [] && !Uncrossed(Final(w, actions).t.orders)
  {
    assert TAKING_BUY.Cost(1) == 10.0;
    OrdersPass(OFFER, TAKING_BUY);
  }
}
