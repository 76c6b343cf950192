/**
 * The ledgers and audits of serial runs, over schedules in which the rows of the archive do not mix:
 * each is off by exactly what stale copies add, and by the rounding where there is any.
 */
module ScheduleLedgers {
  import opened Rounding
  import opened Market
  import opened Sums
  import opened ItemLedger
  import opened OmgLedger
  import opened UserMoney
  import opened Floors
  import opened Clients
  import opened Runs
  import opened Interleaving
  import opened Flow
  import opened Overlap
  import opened Pairing

  /** From the start of the server to a point where every command has ended, with every trade archived in one piece. */
  ghost predicate Orderly(actions: seq<Action>) {
    ValidSchedule(START, actions) && Quiet(Final(START, actions)) && Unmixed(START, actions)
  }

  ghost function Registered(actions: seq<Action>, who: Scope, c: Coin): real {
    Total(START, actions, Joined(who, c))
  }

  ghost function AllStale(actions: seq<Action>, who: Scope, c: Coin): real {
    Total(START, actions, Staleness(who, c))
  }

  ghost function AllRounded(actions: seq<Action>, who: Scope, c: Coin): real {
    Total(START, actions, Roundings(who, c))
  }

  /** The wealth at the end, with the trades read from the archive by any measure that agrees with their effect. */
  lemma OrderlyWealth(actions: seq<Action>, who: Scope, c: Coin, h: (Order, Order) -> real)
    requires Orderly(actions)
    requires forall r, x | MayFill(r, x) :: Effects(who, c)(r, x) == h(r, x)
    ensures Wealth(Final(START, actions).t, who, c)
         == Registered(actions, who, c) + TradeSum(Final(START, actions).t.archives, h)
            + AllRounded(actions, who, c) + AllStale(actions, who, c)
  {
    ScheduleMoves(START, actions, who, c);
    QuietWealths(Final(START, actions), who, c);
    FillsSame(START, actions, Effects(who, c), h);
    ArchiveIsFills(actions, h);
  }

  lemma {:induction false} TradeSumMinus(archives: seq<Order>, h: (Order, Order) -> real)
    ensures TradeSum(archives, Minus(h)) == -TradeSum(archives, h)
    decreases |archives|
  {
    if |archives| >= 2 {
      TradeSumMinus(archives[..|archives| - 2], h);
    }
  }

  // ---------- DOGE, BTC and ETH ----------

  /** The item ledger holds exactly when the stale copies that were written add up to nothing. */
  lemma LedgerKeptExactlyWhen(actions: seq<Action>, c: Coin)
    requires c != OMG && Orderly(actions)
    ensures var ledger := Ledger(Final(START, actions).t, c);
            && ledger == Registered(actions, Everyone, c) + AllStale(actions, Everyone, c)
            && (ledger == Registered(actions, Everyone, c) <==> AllStale(actions, Everyone, c) == 0.0)
  {
    ScheduleCoins(START, actions, c);
    QuietWealths(Final(START, actions), Everyone, c);
    WealthOfEveryone(Final(START, actions).t, c);
    ArchiveIsFills(actions, TakenByBuyers(c));
  }

  /** What an archived trade means for the audit of `u`. */
  ghost function AuditEffect(u: int, c: Coin): (Order, Order) -> real {
    (r: Order, x: Order) => BoughtBy(u, c)(r, x) - SoldTakingBy(u, c)(r, x) - 2.0 * SoldRestingBy(u, c)(r, x)
  }

  lemma {:induction false} AuditEffects(archives: seq<Order>, u: int, c: Coin)
    ensures TradeSum(archives, AuditEffect(u, c))
         == TradeSum(archives, BoughtBy(u, c)) - TradeSum(archives, SoldTakingBy(u, c))
            - 2.0 * TradeSum(archives, SoldRestingBy(u, c))
    decreases |archives|
  {
    if |archives| >= 2 {
      AuditEffects(archives[..|archives| - 2], u, c);
    }
  }

  lemma FillAudit(u: int, c: Coin, r: Order, x: Order)
    requires c != OMG && MayFill(r, x)
    ensures Effects(Only(u), c)(r, x) == AuditEffect(u, c)(r, x)
  {
    var n := Volume(r, x) as real;
    assert Effect(Only(u), r, x, c)
        == (if u == x.owner && x.item == c then (if x.side == Buy then n else -n) else 0.0)
           + (if u == r.owner && r.item == c then (if r.side == Buy then n else -2.0 * n) else 0.0);
    var bought, taking, resting := BoughtBy(u, c)(r, x), SoldTakingBy(u, c)(r, x), SoldRestingBy(u, c)(r, x);
    assert bought == if r.item == c && (if x.side == Buy then x.owner == u else r.owner == u) then n else 0.0;
    assert taking == if x.side == Sell && x.item == c && x.owner == u then n else 0.0;
    assert resting == if r.side == Sell && r.item == c && r.owner == u then n else 0.0;
    assert AuditEffect(u, c)(r, x) == bought - taking - 2.0 * resting;
  }

  /** So does the audit of every user. */
  lemma AuditKeptExactlyWhen(actions: seq<Action>, u: int, c: Coin)
    requires c != OMG && Orderly(actions) && u in Final(START, actions).t.users
    ensures var audit := Audit(Final(START, actions).t, u, c);
            && audit == Registered(actions, Only(u), c) + AllStale(actions, Only(u), c)
            && (audit == Registered(actions, Only(u), c) <==> AllStale(actions, Only(u), c) == 0.0)
  {
    var t := Final(START, actions).t;
    forall r, x | MayFill(r, x) ensures Effects(Only(u), c)(r, x) == AuditEffect(u, c)(r, x) {
      FillAudit(u, c, r, x);
    }
    OrderlyWealth(actions, Only(u), c, AuditEffect(u, c));
    ScheduleRounds(START, actions, Only(u), c);
    AuditEffects(t.archives, u, c);
    SumSame(t.orders, Locked(Only(u), c), OfferedBy(u, c));
  }

  // ---------- OMG ----------

  lemma FillMoney(r: Order, x: Order)
    requires MayFill(r, x)
    ensures Effects(Everyone, OMG)(r, x) == Minus(PaidToTakers())(r, x)
  {
    assert Taker(Everyone, r, x, OMG) + Maker(Everyone, r, x, OMG) == 0.0;
  }

  /** Whatever else is launched sends no price. */
  lemma {:induction false} LaunchesAreWhole(w: World, actions: seq<Action>)
    requires ValidSchedule(w, actions)
    requires forall a | a in actions && a.Launch? && a.command.Starting? :: Whole(a.command.ord.price)
    ensures forall a | a in actions :: WholeAction(a)
    decreases |actions|
  {
    if actions != [] {
      assert actions[0] in actions;
      LaunchesAreWhole(Next(w, actions[0]), actions[1..]);
      forall a | a in actions ensures WholeAction(a) {
        assert a == actions[0] || a in actions[1..];
      }
    }
  }

  lemma RoundingWithin(actions: seq<Action>, who: Scope)
    requires ValidSchedule(START, actions)
    ensures var off, n := AllRounded(actions, who, OMG), Total(START, actions, Writings(who));
            && -n <= off <= n
            && ((forall a | a in actions && a.Launch? && a.command.Starting? :: Whole(a.command.ord.price))
                ==> off == 0.0)
  {
    ScheduleRounds(START, actions, who, OMG);
    if forall a | a in actions && a.Launch? && a.command.Starting? :: Whole(a.command.ord.price) {
      LaunchesAreWhole(START, actions);
      ScheduleIsWhole(START, actions, who, OMG);
    }
  }

  /** The OMG ledger is off by what stale copies add, and by at most one for each balance written. */
  lemma MoneyOfSchedule(actions: seq<Action>)
    requires Orderly(actions)
    ensures var expected := Registered(actions, Everyone, OMG) + AllStale(actions, Everyone, OMG);
            var off := Money(Final(START, actions).t) - expected;
            var n := Total(START, actions, Writings(Everyone));
            && -n <= off <= n
            && ((forall a | a in actions && a.Launch? && a.command.Starting? :: Whole(a.command.ord.price))
                ==> off == 0.0)
  {
    var t := Final(START, actions).t;
    forall r, x | MayFill(r, x) ensures Effects(Everyone, OMG)(r, x) == Minus(PaidToTakers())(r, x) {
      FillMoney(r, x);
    }
    OrderlyWealth(actions, Everyone, OMG, Minus(PaidToTakers()));
    RoundingWithin(actions, Everyone);
    TradeSumMinus(t.archives, PaidToTakers());
    WorldFromStart(actions);
    forall id | id in t.orders ensures Locked(Everyone, OMG)(t.orders[id]) == BidValue()(t.orders[id]) {
      assert RowOk(t, id);
    }
    SumSame(t.orders, Locked(Everyone, OMG), BidValue());
  }

  ghost function Worths(u: int): (Order, Order) -> real {
    (r: Order, x: Order) => TradeWorth(u, r, x)
  }

  lemma {:induction false} TradeWorthSum(archives: seq<Order>, u: int)
    ensures TradeSum(archives, Worths(u))
         == TradeSum(archives, PaidTakingBy(u)) + 2.0 * TradeSum(archives, PaidForBidsOf(u))
            - TradeSum(archives, ReceivedBy(u)) - TradeSum(archives, CoinsGained(u))
    decreases |archives|
  {
    if |archives| >= 2 {
      TradeWorthSum(archives[..|archives| - 2], u);
    }
  }

  lemma FillWorth(u: int, r: Order, x: Order)
    requires MayFill(r, x)
    ensures Effects(Only(u), OMG)(r, x) == Minus(Worths(u))(r, x)
  {
    TradeWorths(u, r, x);
  }

  /** The OMG of one user is off by what stale copies of the user's rows add, and by one for each write of it. */
  lemma UserMoneyOfSchedule(actions: seq<Action>, u: int)
    requires Orderly(actions) && u in Final(START, actions).t.users
    ensures var expected := Registered(actions, Only(u), OMG) + AllStale(actions, Only(u), OMG);
            var off := Worth(Final(START, actions).t, u) - expected;
            var n := Total(START, actions, Writings(Only(u)));
            && -n <= off <= n
            && ((forall a | a in actions && a.Launch? && a.command.Starting? :: Whole(a.command.ord.price))
                ==> off == 0.0)
  {
    var t := Final(START, actions).t;
    forall r, x | MayFill(r, x) ensures Effects(Only(u), OMG)(r, x) == Minus(Worths(u))(r, x) {
      FillWorth(u, r, x);
    }
    OrderlyWealth(actions, Only(u), OMG, Minus(Worths(u)));
    RoundingWithin(actions, Only(u));
    TradeSumMinus(t.archives, Worths(u));
    TradeWorthSum(t.archives, u);
    WorldFromStart(actions);
    forall id | id in t.orders ensures Locked(Only(u), OMG)(t.orders[id]) == BidBy(u)(t.orders[id]) {
      assert RowOk(t, id);
    }
    SumSame(t.orders, Locked(Only(u), OMG), BidBy(u));
  }

  // ---------- Without a stale write ----------

  /** Commands that overlap without a stale write and without mixing archive rows keep every ledger and audit. */
  lemma FreshKeepsLedgers(actions: seq<Action>, u: int, c: Coin)
    requires Orderly(actions) && AllFresh(START, actions) && u in Final(START, actions).t.users
    ensures var t := Final(START, actions).t;
            && (c != OMG ==> Ledger(t, c) == Registered(actions, Everyone, c)
                             && Audit(t, u, c) == Registered(actions, Only(u), c))
            && ((forall a | a in actions && a.Launch? && a.command.Starting? :: Whole(a.command.ord.price)) ==>
                  Money(t) == Registered(actions, Everyone, OMG) && Worth(t, u) == Registered(actions, Only(u), OMG))
  {
    AllFreshIsNotStale(START, actions, Everyone, OMG);
    AllFreshIsNotStale(START, actions, Only(u), OMG);
    MoneyOfSchedule(actions);
    UserMoneyOfSchedule(actions, u);
    if c != OMG {
      AllFreshIsNotStale(START, actions, Everyone, c);
      AllFreshIsNotStale(START, actions, Only(u), c);
      LedgerKeptExactlyWhen(actions, c);
      AuditKeptExactlyWhen(actions, u, c);
    }
  }

  // ---------- Serial runs are such schedules ----------

  /** Nobody but `k` runs a command. */
  predicate ByClient(actions: seq<Action>, k: int) {
    forall a | a in actions :: a.Join? || a.client == k
  }

  lemma {:induction false} TurnsAreByClient(k: int, t: Tables, x: Client, pick: int, stamp: int, posted: int)
    ensures ByClient(Turns(k, t, x, pick, stamp, posted), k)
    decreases Ahead(x)
  {
    if !x.Done? {
      var (t', x') := Statement(t, x, pick, if x.Stamping? then stamp else posted);
      TurnOrder(t, x, pick, if x.Stamping? then stamp else posted);
      TurnsAreByClient(k, t', x', pick, stamp, posted);
    }
  }

  lemma TurnOrder(t: Tables, x: Client, pick: int, now: int)
    requires !x.Done?
    ensures Ahead(Statement(t, x, pick, now).1) < Ahead(x)
  {
  }

  lemma {:induction false} OneByOneIsByClient(k: int, t: Tables, es: seq<Event>)
    requires ValidRun(t, es)
    ensures ByClient(OneByOne(k, t, es), k)
    decreases |es|
  {
    if es != [] {
      match es[0] {
        case Registration(_) =>
        case Submission(ord, pick, stamp, posted) => TurnsAreByClient(k, t, Starting(ord), pick, stamp, posted);
        case Cancellation(id, userId) =>
          TurnsAreByClient(k, t, CancelReading(id, userId), NO_MATCH, t.clock, t.clock);
      }
      OneByOneIsByClient(k, Step(t, es[0]), es[1..]);
    }
  }

  ghost predicate OthersDone(w: World, k: int) {
    forall i | i in w.clients && i != k :: w.clients[i].Done?
  }

  lemma {:induction false} OneClientIsApart(w: World, actions: seq<Action>, k: int)
    requires ValidSchedule(w, actions) && ByClient(actions, k) && OthersDone(w, k)
    ensures AlwaysApart(w, actions) && Unmixed(w, actions) && OthersDone(Final(w, actions), k)
    decreases |actions|
  {
    if actions != [] {
      OneClientIsApart(Next(w, actions[0]), actions[1..], k);
    }
  }

  /** Every serial run is a schedule that keeps its commands apart, writes nothing stale and mixes no rows. */
  lemma SerialRunIsOrderly(k: int, es: seq<Event>)
    requires ValidRun(EMPTY, es)
    ensures var actions := OneByOne(k, EMPTY, es);
            Orderly(actions) && AlwaysApart(START, actions) && AllFresh(START, actions)
            && Final(START, actions).t == After(EMPTY, es)
  {
    var actions := OneByOne(k, EMPTY, es);
    SerialRunIsSchedule(START, k, es);
    OneByOneIsByClient(k, EMPTY, es);
    OneClientIsApart(START, actions, k);
    ApartIsFresh(START, actions);
  }
}
