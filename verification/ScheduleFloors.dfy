/** How far below zero a balance can go over schedules without a stale write. */
module ScheduleFloors {
  import opened Rounding
  import opened Market
  import opened Sums
  import opened ItemLedger
  import opened Floors
  import opened Clients
  import opened Flow
  import opened Overlap
  import opened Pairing
  import opened ScheduleLedgers

  /** The copy with which a client pays or reserves was checked when it was read. */
  predicate Backed(x: Client) {
    match x
    case Searching(ord, self) => Funded(self, ord)
    case Reading(ord, self, _) => Funded(self, ord)
    case Stamping(ord, self, _, _) => Funded(self, ord)
    case ArchivingMatch(ord, self, _, _) => Funded(self, ord)
    case ArchivingOwn(ord, self, _, _) => Funded(self, ord)
    case PayingSelf(ord, self, _, _) => Funded(self, ord)
    case Posting(ord, self) => Reservable(self, ord)
    case Reserving(ord, self) => Reservable(self, ord)
    case _ => true
  }

  ghost predicate AllBacked(w: World) {
    forall k | k in w.clients :: Backed(w.clients[k])
  }

  lemma NextStaysBacked(w: World, a: Action)
    requires Allowed(w, a) && AllBacked(w)
    ensures AllBacked(Next(w, a))
  {
    if a.Run? {
      assert Backed(w.clients[a.client]);
      assert Backed(Next(w, a).clients[a.client]);
    }
  }

  /** Adds up `h` over the payments of makers. */
  ghost function Payments(h: (Order, Order) -> real): (World, Action) -> real {
    (w: World, a: Action) =>
      if a.Run? && a.client in w.clients && w.clients[a.client].PayingMaker?
      then h(w.clients[a.client].row, w.clients[a.client].ord) else 0.0
  }

  /** Joining users bring no debts. */
  ghost predicate SolventAction(a: Action) {
    a.Join? ==> forall c: Coin :: a.balances.Balance(c) >= 0
  }

  ghost predicate AboveBy(t: Tables, u: int, c: Coin, d: real) {
    u in t.users ==> t.users[u].Balance(c) as real >= -d
  }

  lemma PaymentStaysAbove(t: Tables, x: Client, pick: int, now: int, u: int, c: Coin, d: real)
    requires (x.PayingSelf? || x.PayingMaker?) && Fresh(t, x) && Backed(x) && MayFill(x.row, x.ord)
    requires d >= 0.0 && AboveBy(t, u, c, d)
    ensures var d' := if x.PayingMaker? then d + Charge(u, c)(x.row, x.ord) else d;
            d' >= d && AboveBy(Statement(t, x, pick, now).0, u, c, d')
  {
    var n := Volume(x.row, x.ord);
    ChargeNonNegative(x.row, x.ord, u, c);
    if x.PayingSelf? && u == x.ord.owner {
      TakerStaysAbove(x.self, x.ord, x.row, n, c, d);
    } else if x.PayingMaker? && u == x.row.owner {
      MakerStaysAbove(x.maker, x.ord, x.row, n, c, d);
    }
  }

  lemma ReservationStaysAbove(t: Tables, x: Client, pick: int, now: int, u: int, c: Coin, d: real)
    requires (x.Reserving? || x.CancelPaying?) && Fresh(t, x) && Backed(x)
    requires x.CancelPaying? ==> x.row.WellFormed()
    requires d >= 0.0 && AboveBy(t, u, c, d)
    ensures AboveBy(Statement(t, x, pick, now).0, u, c, d)
  {
    if x.CancelPaying? && u == x.row.owner && u in t.users && c == OMG {
      TimesNonNegative(x.row.quantity, x.row.price);
      TruncAbove(t.users[u].omg as real + x.row.Cost(x.row.quantity), d);
    }
  }

  lemma NextStaysAbove(w: World, a: Action, u: int, c: Coin, d: real)
    requires WorldInv(w) && AllBacked(w) && Allowed(w, a) && FreshAction(w, a) && SolventAction(a)
    requires d >= 0.0 && AboveBy(w.t, u, c, d)
    ensures Payments(Charge(u, c))(w, a) >= 0.0 && AboveBy(Next(w, a).t, u, c, d + Payments(Charge(u, c))(w, a))
  {
    if a.Run? {
      var x := w.clients[a.client];
      assert Knows(w.t, w.issued, x) && Backed(x);
      if x.PayingSelf? || x.PayingMaker? {
        PaymentStaysAbove(w.t, x, a.pick, a.now, u, c, d);
      } else if x.Reserving? || x.CancelPaying? {
        ReservationStaysAbove(w.t, x, a.pick, a.now, u, c, d);
      } else {
        assert Next(w, a).t.users == w.t.users;
      }
    }
  }

  /** No balance falls below minus what the user's filled resting orders were charged, at any point. */
  lemma {:induction false} ScheduleStaysAbove(w: World, actions: seq<Action>, u: int, c: Coin, d: real)
    requires WorldInv(w) && AllBacked(w) && ValidSchedule(w, actions) && AllFresh(w, actions)
    requires d >= 0.0 && AboveBy(w.t, u, c, d)
    requires forall a | a in actions && a.Join? ::
               a.balances.omg >= 0 && a.balances.doge >= 0 && a.balances.btc >= 0 && a.balances.eth >= 0
    ensures AboveBy(Final(w, actions).t, u, c, d + Total(w, actions, Payments(Charge(u, c))))
    decreases |actions|
  {
    if actions != [] {
      var a := actions[0];
      assert a in actions && SolventAction(a);
      NextStaysAbove(w, a, u, c, d);
      NextKeepsWorld(w, a);
      NextStaysBacked(w, a);
      ScheduleStaysAbove(Next(w, a), actions[1..], u, c, d + Payments(Charge(u, c))(w, a));
    }
  }

  /** A maker that is charged and whose order is not filled yet. */
  ghost function Unfilled(h: (Order, Order) -> real): Client -> real {
    (x: Client) => if x.Filling? then h(x.row, x.ord) else 0.0
  }

  lemma NextPays(w: World, a: Action, h: (Order, Order) -> real)
    requires Allowed(w, a)
    ensures Sum(w.clients, Unfilled(h)) + Payments(h)(w, a) == Sum(Next(w, a).clients, Unfilled(h)) + Fills(h)(w, a)
  {
    if !a.Join? {
      SumWrite(w.clients, a.client, Next(w, a).clients[a.client], Unfilled(h));
    }
  }

  lemma {:induction false} PaymentsAreFills(w: World, actions: seq<Action>, h: (Order, Order) -> real)
    requires ValidSchedule(w, actions)
    ensures Sum(w.clients, Unfilled(h)) + Total(w, actions, Payments(h))
         == Sum(Final(w, actions).clients, Unfilled(h)) + Total(w, actions, Fills(h))
    decreases |actions|
  {
    if actions != [] {
      NextPays(w, actions[0], h);
      PaymentsAreFills(Next(w, actions[0]), actions[1..], h);
    }
  }

  /**
   * From the start of the server, over schedules without a stale write: the floor of serial runs, with
   * the charges read from the archive.
   */
  lemma FreshStaysAbove(actions: seq<Action>, u: int, c: Coin)
    requires Orderly(actions) && AllFresh(START, actions)
    requires forall a | a in actions && a.Join? ::
               a.balances.omg >= 0 && a.balances.doge >= 0 && a.balances.btc >= 0 && a.balances.eth >= 0
    requires u in Final(START, actions).t.users
    ensures Above(Final(START, actions).t, u, c)
  {
    ScheduleStaysAbove(START, actions, u, c, 0.0);
    PaymentsAreFills(START, actions, Charge(u, c));
    SumOfNothing(Final(START, actions).clients, Unfilled(Charge(u, c)));
    ArchiveIsFills(actions, Charge(u, c));
  }
}
