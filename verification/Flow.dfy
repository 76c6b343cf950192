/**
 * What every statement of every client does to balances and open orders: exactly what a trade, an
 * order or a cancellation should do, plus a rounding, plus what is wrong with the copy it writes back.
 */
module Flow {
  import opened Rounding
  import opened Market
  import opened Sums
  import opened ItemLedger
  import opened OmgLedger
  import opened Clients

  /** Whose balances and orders are counted. */
  datatype Scope = Everyone | Only(user: int) {
    predicate Covers(id: int) {
      Everyone? || user == id
    }
  }

  // ---------- What is counted ----------

  /** What `n` units of an order keep reserved, in coin `c`. */
  function Reserved(o: Order, n: int, c: Coin): real {
    if o.side == Sell then if o.item == c then n as real else 0.0
    else if c == OMG then o.Cost(n) else 0.0
  }

  ghost function Locked(who: Scope, c: Coin): Order -> real {
    (o: Order) => if who.Covers(o.owner) then Reserved(o, o.quantity, c) else 0.0
  }

  ghost function Held(users: map<int, User>, who: Scope, c: Coin): real {
    match who
    case Everyone => Sum(users, Holding(c))
    case Only(u) => if u in users then users[u].Balance(c) as real else 0.0
  }

  /** Held and reserved. */
  ghost function Wealth(t: Tables, who: Scope, c: Coin): real {
    Held(t.users, who, c) + Sum(t.orders, Locked(who, c))
  }

  // ---------- What should happen ----------

  /** What a trade of `n` units for `cost` should add to the balance of the owner of `o`. */
  function Due(who: Scope, o: Order, n: int, cost: real, c: Coin): real {
    if !who.Covers(o.owner) then 0.0
    else
      var bought := (if o.item == c then n as real else 0.0) - (if c == OMG then cost else 0.0);
      if o.side == Buy then bought else -bought
  }

  function Units(who: Scope, o: Order, n: int, c: Coin): real {
    if who.Covers(o.owner) then Reserved(o, n, c) else 0.0
  }

  /** What the client's command has already done on one side and still has to do on the other. */
  function Pending(x: Client, who: Scope, c: Coin): real {
    match x
    case ReadingMaker(ord, _, row) => -Taker(who, row, ord, c)
    case PayingMaker(ord, _, row, _) => -Taker(who, row, ord, c)
    case Filling(ord, _, row) => -Taker(who, row, ord, c) - Maker(who, row, ord, c)
    case Reserving(ord, _) => -Units(who, ord, ord.quantity, c)
    case CancelDeleting(_, row) => -Units(who, row, row.quantity, c)
    case _ => 0.0
  }

  function Taker(who: Scope, row: Order, ord: Order, c: Coin): real {
    Due(who, ord, Volume(row, ord), row.Cost(Volume(row, ord)), c)
  }

  function Maker(who: Scope, row: Order, ord: Order, c: Coin): real {
    Due(who, row, Volume(row, ord), row.Cost(Volume(row, ord)), c)
  }

  /** What a whole trade does to held and reserved: both sides are paid and the match shrinks. */
  function Effect(who: Scope, row: Order, ord: Order, c: Coin): real {
    Taker(who, row, ord, c) + Maker(who, row, ord, c) - Units(who, row, Volume(row, ord), c)
  }

  // ---------- What goes wrong ----------

  function Change(u: User, u': User, c: Coin): real {
    (u'.Balance(c) - u.Balance(c)) as real
  }

  /** What the conversion to `int` adds to what the statement should do. */
  function Rounded(x: Client, who: Scope, c: Coin): real {
    match x
    case PayingSelf(ord, self, _, row) =>
      if !who.Covers(ord.owner) then 0.0
      else Change(self, TakerLeg(self, ord, row, Volume(row, ord)), c) - Taker(who, row, ord, c)
    case PayingMaker(ord, _, row, maker) =>
      if !who.Covers(row.owner) then 0.0
      else Change(maker, MakerLeg(maker, ord, row, Volume(row, ord)), c) - Maker(who, row, ord, c)
    case Reserving(ord, self) =>
      if who.Covers(ord.owner) then Change(self, self.Reserve(ord), c) + Reserved(ord, ord.quantity, c) else 0.0
    case CancelPaying(_, row, self) =>
      if who.Covers(row.owner) then Change(self, self.Refund(row), c) - Reserved(row, row.quantity, c) else 0.0
    case _ => 0.0
  }

  /** The copy of a user that is written back, less what the table has. */
  function StaleUser(t: Tables, id: int, copy: User, who: Scope, c: Coin): real {
    if who.Covers(id) && id in t.users then Change(t.users[id], copy, c) else 0.0
  }

  /**
   * What is wrong with the client's copy when its next statement writes: too much in the copy of a
   * balance, a match that was filled or deleted meanwhile, an order that was filled or deleted before
   * it is cancelled.
   */
  function Stale(t: Tables, x: Client, who: Scope, c: Coin): real {
    match x
    case PayingSelf(ord, self, _, _) => StaleUser(t, ord.owner, self, who, c)
    case PayingMaker(_, _, row, maker) => StaleUser(t, row.owner, maker, who, c)
    case Reserving(ord, self) => StaleUser(t, ord.owner, self, who, c)
    case CancelPaying(_, row, self) => StaleUser(t, row.owner, self, who, c)
    case Filling(ord, id, row) =>
      if id in t.orders then Units(who, row, row.quantity, c) - Units(who, row, t.orders[id].quantity, c)
      else Units(who, row, Volume(row, ord), c)
    case CancelDeleting(id, row) =>
      Units(who, row, row.quantity, c) - if id in t.orders then Units(who, row, t.orders[id].quantity, c) else 0.0
    case _ => 0.0
  }

  // ---------- One statement ----------

  /** How a write of one user moves what is held. */
  lemma HeldWritten(t: Tables, id: int, u: User, who: Scope, c: Coin)
    requires id in t.users
    ensures Held(WriteUser(t, id, u).users, who, c)
         == Held(t.users, who, c) + if who.Covers(id) then Change(t.users[id], u, c) else 0.0
  {
    SumWrite(t.users, id, u, Holding(c));
  }

  /** A part of an order and the rest reserve what the whole does. */
  lemma ReservedSplit(o: Order, n: int, c: Coin)
    requires 0 <= n <= o.quantity
    ensures Reserved(o, o.quantity, c) == Reserved(o, n, c) + Reserved(o, o.quantity - n, c)
  {
    TimesSplit(o.quantity, n, o.price);
  }

  ghost predicate Moves(t: Tables, x: Client, pick: int, now: int, who: Scope, c: Coin) {
    var (t', x') := Statement(t, x, pick, now);
    Wealth(t', who, c) + Pending(x', who, c)
    == Wealth(t, who, c) + Pending(x, who, c)
       + (if x.Filling? then Effect(who, x.row, x.ord, c) else 0.0) + Rounded(x, who, c) + Stale(t, x, who, c)
  }

  lemma PaymentMoves(t: Tables, x: Client, pick: int, now: int, who: Scope, c: Coin)
    requires x.PayingSelf? || x.PayingMaker?
    requires x.ord.owner in t.users && x.row.owner in t.users
    ensures Moves(t, x, pick, now, who, c)
  {
    var n := Volume(x.row, x.ord);
    if x.PayingSelf? {
      HeldWritten(t, x.ord.owner, TakerLeg(x.self, x.ord, x.row, n), who, c);
    } else {
      HeldWritten(t, x.row.owner, MakerLeg(x.maker, x.ord, x.row, n), who, c);
    }
  }

  lemma PostingMoves(t: Tables, x: Client, pick: int, now: int, who: Scope, c: Coin)
    requires TableInv(t) && x.Posting?
    ensures Moves(t, x, pick, now, who, c)
  {
    assert t.nextOrderId !in t.orders;
    SumWrite(t.orders, t.nextOrderId, x.ord.(createdAt := now), Locked(who, c));
  }

  lemma ReservationMoves(t: Tables, x: Client, pick: int, now: int, who: Scope, c: Coin)
    requires x.Reserving? && x.ord.owner in t.users
    ensures Moves(t, x, pick, now, who, c)
  {
    HeldWritten(t, x.ord.owner, x.self.Reserve(x.ord), who, c);
  }

  lemma RefundMoves(t: Tables, x: Client, pick: int, now: int, who: Scope, c: Coin)
    requires x.CancelPaying? && x.row.owner in t.users
    ensures Moves(t, x, pick, now, who, c)
  {
    HeldWritten(t, x.row.owner, x.self.Refund(x.row), who, c);
  }

  /** The row a client holds and the row in the table differ in the quantity at most. */
  lemma DeletionMoves(t: Tables, x: Client, pick: int, now: int, who: Scope, c: Coin)
    requires x.CancelDeleting?
    requires x.id in t.orders ==> t.orders[x.id] == x.row.(quantity := t.orders[x.id].quantity)
    ensures Moves(t, x, pick, now, who, c)
  {
    if x.id in t.orders {
      SumTakeOut(t.orders, x.id, Locked(who, c));
    } else {
      assert t.orders - {x.id} == t.orders;
    }
  }

  lemma LockedAfterFill(t: Tables, x: Client, pick: int, now: int, who: Scope, c: Coin)
    requires x.Filling? && x.row.WellFormed() && x.ord.WellFormed()
    requires x.id in t.orders ==> t.orders[x.id] == x.row.(quantity := t.orders[x.id].quantity)
    ensures Sum(Statement(t, x, pick, now).0.orders, Locked(who, c))
         == Sum(t.orders, Locked(who, c)) - Units(who, x.row, Volume(x.row, x.ord), c) + Stale(t, x, who, c)
  {
    var n, row := Volume(x.row, x.ord), x.row;
    ReservedSplit(row, n, c);
    if x.id in t.orders {
      SumTakeOut(t.orders, x.id, Locked(who, c));
      SumWrite(t.orders, x.id, row.(quantity := row.quantity - n), Locked(who, c));
    } else {
      assert t.orders - {x.id} == t.orders;
    }
  }

  lemma FillMoves(t: Tables, x: Client, pick: int, now: int, who: Scope, c: Coin)
    requires x.Filling? && x.row.WellFormed() && x.ord.WellFormed()
    requires x.id in t.orders ==> t.orders[x.id] == x.row.(quantity := t.orders[x.id].quantity)
    ensures Moves(t, x, pick, now, who, c)
  {
    LockedAfterFill(t, x, pick, now, who, c);
  }

  /** The other statements change neither users nor orders. */
  predicate Writes(x: Client) {
    || x.PayingSelf? || x.PayingMaker? || x.Filling? || x.Posting? || x.Reserving? || x.CancelPaying?
    || x.CancelDeleting?
  }

  lemma ReadingMoves(t: Tables, issued: map<int, Order>, x: Client, pick: int, now: int, who: Scope, c: Coin)
    requires Knows(t, issued, x) && !Writes(x)
    requires forall id | id in issued :: issued[id].owner in t.users
    ensures Moves(t, x, pick, now, who, c)
  {
    var t' := Statement(t, x, pick, now).0;
    assert t'.users == t.users && t'.orders == t.orders;
  }

  /**
   * Every statement, however stale its copies: balances and open orders move by what a trade should do,
   * by the rounding, and by what is wrong with the copy. Nothing else.
   */
  lemma StatementMoves(t: Tables, issued: map<int, Order>, x: Client, pick: int, now: int, who: Scope, c: Coin)
    requires TableInv(t) && Knows(t, issued, x)
    requires forall id | id in issued :: issued[id].owner in t.users
    requires forall id | id in t.orders :: Remains(issued, id, t.orders[id])
    ensures Moves(t, x, pick, now, who, c)
  {
    if !Writes(x) {
      ReadingMoves(t, issued, x, pick, now, who, c);
    } else if x.PayingSelf? || x.PayingMaker? {
      PaymentMoves(t, x, pick, now, who, c);
    } else if x.Filling? {
      FillMoves(t, x, pick, now, who, c);
    } else if x.Posting? {
      PostingMoves(t, x, pick, now, who, c);
    } else if x.Reserving? {
      ReservationMoves(t, x, pick, now, who, c);
    } else if x.CancelPaying? {
      RefundMoves(t, x, pick, now, who, c);
    } else {
      DeletionMoves(t, x, pick, now, who, c);
    }
  }

  // ---------- Schedules ----------

  /** Adds up what every action of a schedule is worth in the world it finds. */
  ghost function Total(w: World, actions: seq<Action>, m: (World, Action) -> real): real
    decreases |actions|
  {
    if actions == [] then 0.0 else m(w, actions[0]) + Total(Next(w, actions[0]), actions[1..], m)
  }

  ghost function Joined(who: Scope, c: Coin): (World, Action) -> real {
    (w: World, a: Action) => if a.Join? && who.Covers(w.t.nextUserId) then a.balances.Balance(c) as real else 0.0
  }

  /** Adds up `h` over the fills, each a match and the order it is filled for. */
  ghost function Fills(h: (Order, Order) -> real): (World, Action) -> real {
    (w: World, a: Action) =>
      if a.Run? && a.client in w.clients && w.clients[a.client].Filling?
      then h(w.clients[a.client].row, w.clients[a.client].ord) else 0.0
  }

  ghost function Effects(who: Scope, c: Coin): (Order, Order) -> real {
    (r: Order, x: Order) => Effect(who, r, x, c)
  }

  ghost function Roundings(who: Scope, c: Coin): (World, Action) -> real {
    (w: World, a: Action) => if a.Run? && a.client in w.clients then Rounded(w.clients[a.client], who, c) else 0.0
  }

  ghost function Staleness(who: Scope, c: Coin): (World, Action) -> real {
    (w: World, a: Action) => if a.Run? && a.client in w.clients then Stale(w.t, w.clients[a.client], who, c) else 0.0
  }

  ghost function Flight(who: Scope, c: Coin): Client -> real {
    (x: Client) => Pending(x, who, c)
  }

  /** Held, reserved, and in the hands of commands under way. */
  ghost function Wealths(w: World, who: Scope, c: Coin): real {
    Wealth(w.t, who, c) + Sum(w.clients, Flight(who, c))
  }

  lemma JoinMoves(t: Tables, balances: User, who: Scope, c: Coin)
    requires TableInv(t)
    ensures Wealth(Register(t, balances), who, c)
         == Wealth(t, who, c) + if who.Covers(t.nextUserId) then balances.Balance(c) as real else 0.0
  {
    RegisterSums(t, balances, Holding(c));
  }

  lemma NextMoves(w: World, a: Action, who: Scope, c: Coin)
    requires WorldInv(w) && Allowed(w, a)
    ensures Wealths(Next(w, a), who, c)
         == Wealths(w, who, c) + Joined(who, c)(w, a) + Fills(Effects(who, c))(w, a)
            + Roundings(who, c)(w, a) + Staleness(who, c)(w, a)
  {
    match a
    case Join(balances) => JoinMoves(w.t, balances, who, c);
    case Launch(k, command) => SumWrite(w.clients, k, command, Flight(who, c));
    case Run(k, pick, now) =>
      var x := w.clients[k];
      assert Knows(w.t, w.issued, x);
      StatementMoves(w.t, w.issued, x, pick, now, who, c);
      SumWrite(w.clients, k, Statement(w.t, x, pick, now).1, Flight(who, c));
  }

  /** The same over every schedule of any number of clients. */
  lemma {:induction false} ScheduleMoves(w: World, actions: seq<Action>, who: Scope, c: Coin)
    requires WorldInv(w) && ValidSchedule(w, actions)
    ensures Wealths(Final(w, actions), who, c)
         == Wealths(w, who, c) + Total(w, actions, Joined(who, c)) + Total(w, actions, Fills(Effects(who, c)))
            + Total(w, actions, Roundings(who, c)) + Total(w, actions, Staleness(who, c))
    decreases |actions|
  {
    if actions != [] {
      NextMoves(w, actions[0], who, c);
      NextKeepsWorld(w, actions[0]);
      ScheduleMoves(Next(w, actions[0]), actions[1..], who, c);
    }
  }

  // ---------- When every command has ended ----------

  ghost predicate Quiet(w: World) {
    forall k | k in w.clients :: w.clients[k].Done?
  }

  lemma QuietWealths(w: World, who: Scope, c: Coin)
    requires Quiet(w)
    ensures Wealths(w, who, c) == Wealth(w.t, who, c)
  {
    SumOfNothing(w.clients, Flight(who, c));
  }

  // ---------- The rounding ----------

  /** Statements that write a balance counted in `who`. */
  predicate Rounds(x: Client, who: Scope) {
    || ((x.PayingSelf? || x.Reserving?) && who.Covers(x.ord.owner))
    || ((x.PayingMaker? || x.CancelPaying?) && who.Covers(x.row.owner))
  }

  lemma EarnRounds(u: User, cost: real)
    ensures -1.0 < u.Earn(cost).omg as real - u.omg as real - cost < 1.0
    ensures -1.0 < u.Earn(-cost).omg as real - u.omg as real + cost < 1.0
    ensures Whole(cost) ==> u.Earn(cost).omg as real == u.omg as real + cost
    ensures Whole(cost) ==> u.Earn(-cost).omg as real == u.omg as real - cost
  {
    if Whole(cost) {
      WholeWitness(-cost, -cost.Floor);
    }
    EarnDrift(u, cost);
    EarnDrift(u, -cost);
  }

  /** `e` is a rounding of coin `c` in a sum of money that is whole or not. */
  predicate Small(e: real, c: Coin, whole: bool) {
    -1.0 < e < 1.0 && (c != OMG || whole ==> e == 0.0)
  }

  lemma TakerRounds(u: User, ord: Order, row: Order, n: int, c: Coin)
    requires row.item == ord.item && n >= 0
    ensures Small(Change(u, TakerLeg(u, ord, row, n), c) - Due(Everyone, ord, n, row.Cost(n), c), c, Whole(row.price))
  {
    var cost := row.Cost(n);
    if Whole(row.price) {
      WholeTimes(n, row.price);
    }
    EarnRounds(u, cost);
    EarnRounds(u.Credit(ord.item, -n), cost);
  }

  lemma MakerRounds(u: User, ord: Order, row: Order, n: int, c: Coin)
    requires row.item == ord.item && row.side != ord.side && n >= 0
    ensures Small(Change(u, MakerLeg(u, ord, row, n), c) - Due(Everyone, row, n, row.Cost(n), c), c, Whole(row.price))
  {
    if Whole(row.price) {
      WholeTimes(n, row.price);
    }
    EarnRounds(u, row.Cost(n));
  }

  lemma ReserveRounds(u: User, ord: Order, c: Coin)
    requires ord.WellFormed()
    ensures Small(Change(u, u.Reserve(ord), c) + Reserved(ord, ord.quantity, c), c, Whole(ord.price))
  {
    if Whole(ord.price) {
      WholeTimes(ord.quantity, ord.price);
      TruncOfWhole(ord.Cost(ord.quantity), ord.Cost(ord.quantity).Floor);
    }
  }

  lemma RefundRounds(u: User, row: Order, c: Coin)
    requires row.quantity > 0
    ensures Small(Change(u, u.Refund(row), c) - Reserved(row, row.quantity, c), c, Whole(row.price))
  {
    if Whole(row.price) {
      WholeTimes(row.quantity, row.price);
    }
    EarnRounds(u, row.Cost(row.quantity));
  }

  /** A client that works for an order of its own. */
  predicate Orders(x: Client) {
    !(x.CancelReading? || x.CancelReadingUser? || x.CancelPaying? || x.CancelDeleting? || x.Done?)
  }

  predicate WholeOrder(x: Client) {
    Orders(x) ==> Whole(x.ord.price)
  }

  ghost predicate WholeWorld(w: World) {
    (forall id | id in w.issued :: Whole(w.issued[id].price)) && (forall k | k in w.clients :: WholeOrder(w.clients[k]))
  }

  /** A statement rounds one balance of OMG by less than one, if it writes a balance; nothing at whole prices. */
  lemma StatementRounds(t: Tables, issued: map<int, Order>, x: Client, who: Scope, c: Coin)
    requires Knows(t, issued, x)
    ensures -1.0 < Rounded(x, who, c) < 1.0
    ensures c != OMG || !Rounds(x, who) ==> Rounded(x, who, c) == 0.0
    ensures WholeOrder(x) && (forall id | id in issued :: Whole(issued[id].price)) ==> Rounded(x, who, c) == 0.0
  {
    match x {
      case PayingSelf(ord, self, _, row) => TakerRounds(self, ord, row, Volume(row, ord), c);
      case PayingMaker(ord, _, row, maker) => MakerRounds(maker, ord, row, Volume(row, ord), c);
      case Reserving(ord, self) => ReserveRounds(self, ord, c);
      case CancelPaying(_, row, self) => RefundRounds(self, row, c);
      case _ =>
    }
  }

  /** How many balances counted in `who` a schedule writes. */
  ghost function Writings(who: Scope): (World, Action) -> real {
    (w: World, a: Action) => if a.Run? && a.client in w.clients && Rounds(w.clients[a.client], who) then 1.0 else 0.0
  }

  /** DOGE, BTC and ETH are never rounded, and OMG by less than one for each balance that is written. */
  lemma {:induction false} ScheduleRounds(w: World, actions: seq<Action>, who: Scope, c: Coin)
    requires WorldInv(w) && ValidSchedule(w, actions)
    ensures var off, n := Total(w, actions, Roundings(who, c)), Total(w, actions, Writings(who));
            && -n <= off <= n && (c != OMG ==> off == 0.0)
            && n <= |actions| as real
    decreases |actions|
  {
    if actions != [] {
      var a := actions[0];
      if a.Run? {
        assert Knows(w.t, w.issued, w.clients[a.client]);
        StatementRounds(w.t, w.issued, w.clients[a.client], who, c);
      }
      NextKeepsWorld(w, a);
      ScheduleRounds(Next(w, a), actions[1..], who, c);
    }
  }

  predicate WholeAction(a: Action) {
    a.Launch? ==> WholeOrder(a.command)
  }

  lemma NextStaysWhole(w: World, a: Action)
    requires WorldInv(w) && WholeWorld(w) && Allowed(w, a) && WholeAction(a)
    ensures WholeWorld(Next(w, a))
  {
    if a.Run? {
      var c, w' := w.clients[a.client], Next(w, a);
      assert Knows(w.t, w.issued, c) && WholeOrder(c);
      assert WholeOrder(w'.clients[a.client]);
    }
  }

  /** At whole prices nothing is rounded. */
  lemma {:induction false} ScheduleIsWhole(w: World, actions: seq<Action>, who: Scope, c: Coin)
    requires WorldInv(w) && ValidSchedule(w, actions) && WholeWorld(w)
    requires forall a | a in actions :: WholeAction(a)
    ensures Total(w, actions, Roundings(who, c)) == 0.0
    decreases |actions|
  {
    if actions != [] {
      var a := actions[0];
      if a.Run? {
        assert Knows(w.t, w.issued, w.clients[a.client]) && WholeOrder(w.clients[a.client]);
        StatementRounds(w.t, w.issued, w.clients[a.client], who, c);
      }
      NextKeepsWorld(w, a);
      NextStaysWhole(w, a);
      ScheduleIsWhole(Next(w, a), actions[1..], who, c);
    }
  }
}
