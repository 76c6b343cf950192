/**
 * The item ledger over every schedule, and the schedules that keep it: those whose stale copies make
 * up for each other, in particular those that write no stale copy.
 */
module Overlap {
  import opened Market
  import opened Sums
  import opened ItemLedger
  import opened Clients
  import opened Flow

  // ---------- Every schedule ----------

  ghost function HeldAndOffered(t: Tables, c: Coin): real {
    Sum(t.users, Holding(c)) + Sum(t.orders, Offered(c))
  }

  lemma WealthOfEveryone(t: Tables, c: Coin)
    requires c != OMG
    ensures Wealth(t, Everyone, c) == HeldAndOffered(t, c)
  {
    SumSame(t.orders, Locked(Everyone, c), Offered(c));
  }

  /** A fill that a client may make. */
  predicate MayFill(row: Order, ord: Order) {
    Crosses(row, ord) && row.WellFormed() && row.CanRest() && ord.WellFormed() && row.createdAt <= ord.createdAt
  }

  /** Two measures that agree on every possible fill add up to the same. */
  lemma {:induction false} FillsSame(w: World, actions: seq<Action>,
                                     h: (Order, Order) -> real, h': (Order, Order) -> real)
    requires WorldInv(w) && ValidSchedule(w, actions)
    requires forall r, x | MayFill(r, x) :: h(r, x) == h'(r, x)
    ensures Total(w, actions, Fills(h)) == Total(w, actions, Fills(h'))
    decreases |actions|
  {
    if actions != [] {
      var a := actions[0];
      if a.Run? {
        var x := w.clients[a.client];
        assert Knows(w.t, w.issued, x);
        assert x.Filling? ==> MayFill(x.row, x.ord);
      }
      NextKeepsWorld(w, a);
      FillsSame(Next(w, a), actions[1..], h, h');
    }
  }

  ghost function Minus(h: (Order, Order) -> real): (Order, Order) -> real {
    (r: Order, x: Order) => -h(r, x)
  }

  lemma {:induction false} FillsNegated(w: World, actions: seq<Action>, h: (Order, Order) -> real)
    ensures Total(w, actions, Fills(Minus(h))) == -Total(w, actions, Fills(h))
    decreases |actions|
  {
    if actions != [] {
      FillsNegated(Next(w, actions[0]), actions[1..], h);
    }
  }

  /** What the fills of a schedule take for buyers from the book. */
  ghost function Taken(w: World, actions: seq<Action>, c: Coin): real {
    Total(w, actions, Fills(TakenByBuyers(c)))
  }

  /** The two legs cancel out, and the match shrinks by what a buyer takes. */
  lemma FillTakes(r: Order, x: Order, c: Coin)
    requires c != OMG && MayFill(r, x)
    ensures Effect(Everyone, r, x, c) == -TakenByBuyers(c)(r, x)
  {
    assert Taker(Everyone, r, x, c) + Maker(Everyone, r, x, c) == 0.0;
  }

  lemma TakenIsEffect(w: World, actions: seq<Action>, c: Coin)
    requires c != OMG && WorldInv(w) && ValidSchedule(w, actions)
    ensures Total(w, actions, Fills(Effects(Everyone, c))) == -Taken(w, actions, c)
  {
    forall r, x | MayFill(r, x) ensures Effects(Everyone, c)(r, x) == Minus(TakenByBuyers(c))(r, x) {
      FillTakes(r, x, c);
    }
    FillsSame(w, actions, Effects(Everyone, c), Minus(TakenByBuyers(c)));
    FillsNegated(w, actions, TakenByBuyers(c));
  }

  /**
   * Over every schedule of any number of clients, without any condition: the coins held, offered and
   * in flight, plus those taken, move by what joins and by what stale copies add.
   */
  lemma ScheduleCoins(w: World, actions: seq<Action>, c: Coin)
    requires c != OMG && WorldInv(w) && ValidSchedule(w, actions)
    ensures Wealths(Final(w, actions), Everyone, c) + Taken(w, actions, c)
         == Wealths(w, Everyone, c) + Total(w, actions, Joined(Everyone, c)) + Total(w, actions, Staleness(Everyone, c))
  {
    ScheduleMoves(w, actions, Everyone, c);
    ScheduleRounds(w, actions, Everyone, c);
    TakenIsEffect(w, actions, c);
  }

  /**
   * From the start of the server, once every command has ended, held + offered + taken = registered
   * exactly when the stale copies that were written add up to nothing.
   */
  lemma CoinsKeptExactlyWhen(actions: seq<Action>, c: Coin)
    requires c != OMG && ValidSchedule(START, actions) && Quiet(Final(START, actions))
    ensures var t := Final(START, actions).t;
            HeldAndOffered(t, c) + Taken(START, actions, c) == Total(START, actions, Joined(Everyone, c))
            <==> Total(START, actions, Staleness(Everyone, c)) == 0.0
  {
    ScheduleCoins(START, actions, c);
    QuietWealths(Final(START, actions), Everyone, c);
    WealthOfEveryone(Final(START, actions).t, c);
  }

  /** One statement keeps the coins exactly when nothing is wrong with the copy it writes. */
  lemma StatementKeepsCoinsExactlyWhen(w: World, k: int, pick: int, now: int, c: Coin)
    requires c != OMG && WorldInv(w) && Allowed(w, Run(k, pick, now))
    ensures var x, w' := w.clients[k], Next(w, Run(k, pick, now));
            Wealths(w', Everyone, c) + (if x.Filling? then TakenByBuyers(c)(x.row, x.ord) else 0.0)
            == Wealths(w, Everyone, c)
            <==> Stale(w.t, x, Everyone, c) == 0.0
  {
    var x := w.clients[k];
    assert Knows(w.t, w.issued, x);
    NextMoves(w, Run(k, pick, now), Everyone, c);
    StatementRounds(w.t, w.issued, x, Everyone, c);
    if x.Filling? {
      FillTakes(x.row, x.ord, c);
    }
  }

  // ---------- Schedules without a stale write ----------

  predicate IsUser(t: Tables, id: int, u: User) {
    id in t.users && t.users[id] == u
  }

  predicate IsOrder(t: Tables, id: int, row: Order) {
    id in t.orders && t.orders[id] == row
  }

  /** If the next statement of the client writes a row, the client's copy of that row is what the table has. */
  predicate Fresh(t: Tables, x: Client) {
    match x
    case PayingSelf(ord, self, _, _) => IsUser(t, ord.owner, self)
    case PayingMaker(_, _, row, maker) => IsUser(t, row.owner, maker)
    case Filling(_, id, row) => IsOrder(t, id, row)
    case Reserving(ord, self) => IsUser(t, ord.owner, self)
    case CancelPaying(_, row, self) => IsUser(t, row.owner, self)
    case CancelDeleting(id, row) => IsOrder(t, id, row)
    case _ => true
  }

  lemma FreshIsNotStale(t: Tables, x: Client, who: Scope, c: Coin)
    requires Fresh(t, x)
    ensures Stale(t, x, who, c) == 0.0
  {
  }

  ghost predicate FreshAction(w: World, a: Action) {
    a.Run? && a.client in w.clients ==> Fresh(w.t, w.clients[a.client])
  }

  /** No write of the schedule is stale. */
  ghost predicate AllFresh(w: World, actions: seq<Action>)
    decreases |actions|
  {
    actions == [] || (FreshAction(w, actions[0]) && AllFresh(Next(w, actions[0]), actions[1..]))
  }

  lemma {:induction false} AllFreshIsNotStale(w: World, actions: seq<Action>, who: Scope, c: Coin)
    requires AllFresh(w, actions)
    ensures Total(w, actions, Staleness(who, c)) == 0.0
    decreases |actions|
  {
    if actions != [] {
      if actions[0].Run? && actions[0].client in w.clients {
        FreshIsNotStale(w.t, w.clients[actions[0].client], who, c);
      }
      AllFreshIsNotStale(Next(w, actions[0]), actions[1..], who, c);
    }
  }

  /** Once every command of a schedule without a stale write has ended: held + offered + taken = registered. */
  lemma FreshKeepsCoins(actions: seq<Action>, c: Coin)
    requires c != OMG && ValidSchedule(START, actions) && AllFresh(START, actions) && Quiet(Final(START, actions))
    ensures HeldAndOffered(Final(START, actions).t, c) + Taken(START, actions, c)
         == Total(START, actions, Joined(Everyone, c))
  {
    AllFreshIsNotStale(START, actions, Everyone, c);
    CoinsKeptExactlyWhen(actions, c);
  }

  // ---------- Commands that stay apart ----------

  /** The users a command has read or will read or write, as far as it has found them. */
  function UsersOf(x: Client): set<int> {
    match x
    case Starting(ord) => {ord.owner}
    case Searching(ord, _) => {ord.owner}
    case Reading(ord, _, _) => {ord.owner}
    case Stamping(ord, _, _, row) => {ord.owner, row.owner}
    case ArchivingMatch(ord, _, _, row) => {ord.owner, row.owner}
    case ArchivingOwn(ord, _, _, row) => {ord.owner, row.owner}
    case PayingSelf(ord, _, _, row) => {ord.owner, row.owner}
    case ReadingMaker(ord, _, row) => {ord.owner, row.owner}
    case PayingMaker(ord, _, row, _) => {ord.owner, row.owner}
    case Filling(ord, _, _) => {ord.owner}
    case Inserting(ord, _) => {ord.owner}
    case Posting(ord, _) => {ord.owner}
    case Reserving(ord, _) => {ord.owner}
    case CancelReading(_, userId) => {userId}
    case CancelReadingUser(_, row) => {row.owner}
    case CancelPaying(_, row, _) => {row.owner}
    case CancelDeleting(_, _) => {}
    case Done(_) => {}
  }

  /** The same for orders. */
  function OrdersOf(x: Client): set<int> {
    match x
    case Reading(_, _, id) => {id}
    case Stamping(_, _, id, _) => {id}
    case ArchivingMatch(_, _, id, _) => {id}
    case ArchivingOwn(_, _, id, _) => {id}
    case PayingSelf(_, _, id, _) => {id}
    case ReadingMaker(_, id, _) => {id}
    case PayingMaker(_, id, _, _) => {id}
    case Filling(_, id, _) => {id}
    case CancelReading(id, _) => {id}
    case CancelReadingUser(id, _) => {id}
    case CancelPaying(id, _, _) => {id}
    case CancelDeleting(id, _) => {id}
    case _ => {}
  }

  /** No two commands under way concern the same user or the same order. */
  ghost predicate Apart(w: World) {
    forall j, k | j in w.clients && k in w.clients && j != k ::
      UsersOf(w.clients[j]) !! UsersOf(w.clients[k]) && OrdersOf(w.clients[j]) !! OrdersOf(w.clients[k])
  }

  /** Every copy the client still uses is what the table has. */
  predicate Current(t: Tables, x: Client) {
    match x
    case Searching(ord, self) => IsUser(t, ord.owner, self)
    case Reading(ord, self, _) => IsUser(t, ord.owner, self)
    case Stamping(ord, self, id, row) => IsUser(t, ord.owner, self) && IsOrder(t, id, row)
    case ArchivingMatch(ord, self, id, row) => IsUser(t, ord.owner, self) && IsOrder(t, id, row)
    case ArchivingOwn(ord, self, id, row) => IsUser(t, ord.owner, self) && IsOrder(t, id, row)
    case PayingSelf(ord, self, id, row) => IsUser(t, ord.owner, self) && IsOrder(t, id, row)
    case ReadingMaker(_, id, row) => IsOrder(t, id, row)
    case PayingMaker(_, id, row, maker) => IsOrder(t, id, row) && IsUser(t, row.owner, maker)
    case Filling(_, id, row) => IsOrder(t, id, row)
    case Posting(ord, self) => IsUser(t, ord.owner, self)
    case Reserving(ord, self) => IsUser(t, ord.owner, self)
    case CancelReadingUser(id, row) => IsOrder(t, id, row)
    case CancelPaying(id, row, self) => IsOrder(t, id, row) && IsUser(t, row.owner, self)
    case CancelDeleting(id, row) => IsOrder(t, id, row)
    case _ => true
  }

  lemma CurrentIsFresh(t: Tables, x: Client)
    requires Current(t, x)
    ensures Fresh(t, x)
  {
  }

  /** `t'` has the same rows as `t` under these IDs. */
  ghost predicate Agree(t: Tables, t': Tables, users: set<int>, orders: set<int>) {
    && (forall u | u in users && u in t.users :: IsUser(t', u, t.users[u]))
    && (forall id | id in orders && id in t.orders :: IsOrder(t', id, t.orders[id]))
  }

  lemma CurrentElsewhere(t: Tables, t': Tables, x: Client)
    requires Current(t, x) && Agree(t, t', UsersOf(x), OrdersOf(x))
    ensures Current(t', x)
  {
  }

  /** A statement writes no user or order but those of its command, and a row under a new ID. */
  lemma StatementStaysApart(t: Tables, x: Client, pick: int, now: int, users: set<int>, orders: set<int>)
    requires users !! UsersOf(x) && orders !! OrdersOf(x) && t.nextOrderId !in t.orders
    ensures Agree(t, Statement(t, x, pick, now).0, users, orders)
  {
  }

  /** A client that had current copies has current copies after its own statement. */
  lemma StatementStaysCurrent(t: Tables, issued: map<int, Order>, x: Client, pick: int, now: int)
    requires Knows(t, issued, x) && Current(t, x)
    ensures var (t', x') := Statement(t, x, pick, now);
            Current(t', x')
  {
  }

  ghost predicate AllCurrent(w: World) {
    forall k | k in w.clients :: Current(w.t, w.clients[k])
  }

  lemma RunStaysCurrent(w: World, k: int, pick: int, now: int)
    requires WorldInv(w) && Allowed(w, Run(k, pick, now)) && Apart(w) && AllCurrent(w)
    ensures AllCurrent(Next(w, Run(k, pick, now)))
  {
    var x, w' := w.clients[k], Next(w, Run(k, pick, now));
    assert Knows(w.t, w.issued, x);
    assert w.t.nextOrderId !in w.t.orders;
    forall j | j in w'.clients ensures Current(w'.t, w'.clients[j]) {
      if j == k {
        StatementStaysCurrent(w.t, w.issued, x, pick, now);
      } else {
        var y := w.clients[j];
        StatementStaysApart(w.t, x, pick, now, UsersOf(y), OrdersOf(y));
        CurrentElsewhere(w.t, w'.t, y);
      }
    }
  }

  lemma NextStaysCurrent(w: World, a: Action)
    requires WorldInv(w) && Allowed(w, a) && Apart(w) && AllCurrent(w)
    ensures FreshAction(w, a) && AllCurrent(Next(w, a))
  {
    match a
    case Join(balances) =>
      forall j | j in w.clients ensures Current(Next(w, a).t, w.clients[j]) {
        assert w.t.nextUserId !in w.t.users;
        CurrentElsewhere(w.t, Next(w, a).t, w.clients[j]);
      }
    case Launch(k, command) =>
    case Run(k, pick, now) =>
      CurrentIsFresh(w.t, w.clients[k]);
      RunStaysCurrent(w, k, pick, now);
  }

  ghost predicate AlwaysApart(w: World, actions: seq<Action>)
    decreases |actions|
  {
    Apart(w) && (actions == [] || AlwaysApart(Next(w, actions[0]), actions[1..]))
  }

  /** Commands that overlap but never concern the same user or order at the same time make no stale write. */
  lemma {:induction false} ApartIsFresh(w: World, actions: seq<Action>)
    requires WorldInv(w) && AllCurrent(w) && ValidSchedule(w, actions) && AlwaysApart(w, actions)
    ensures AllFresh(w, actions) && AllCurrent(Final(w, actions))
    decreases |actions|
  {
    if actions != [] {
      NextStaysCurrent(w, actions[0]);
      NextKeepsWorld(w, actions[0]);
      ApartIsFresh(Next(w, actions[0]), actions[1..]);
    }
  }

  /** So the item ledger holds of every such schedule from the start of the server. */
  lemma ApartKeepsCoins(actions: seq<Action>, c: Coin)
    requires c != OMG && ValidSchedule(START, actions) && AlwaysApart(START, actions) && Quiet(Final(START, actions))
    ensures HeldAndOffered(Final(START, actions).t, c) + Taken(START, actions, c)
         == Total(START, actions, Joined(Everyone, c))
  {
    ApartIsFresh(START, actions);
    FreshKeepsCoins(actions, c);
  }
}
