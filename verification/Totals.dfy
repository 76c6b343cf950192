/**
 * Order totals over every schedule: what is left of an order, what was filled, what was cancelled, and
 * what stale fills reported but did not take.
 */
module Totals {
  import opened Market
  import opened Clients
  import opened Flow

  /** What the table has left of an order. */
  function Left(t: Tables, id: int): real {
    if id in t.orders then t.orders[id].quantity as real else 0.0
  }

  predicate FillsOrder(w: World, a: Action, id: int) {
    a.Run? && a.client in w.clients && w.clients[a.client].Filling? && w.clients[a.client].id == id
  }

  /** The units an order is posted with. */
  ghost function Posted(id: int): (World, Action) -> real {
    (w: World, a: Action) =>
      if a.Run? && a.client in w.clients && w.clients[a.client].Posting? && w.t.nextOrderId == id
      then w.clients[a.client].ord.quantity as real else 0.0
  }

  /** The units that commands fill of the order, as they report them. */
  ghost function Filled(id: int): (World, Action) -> real {
    (w: World, a: Action) =>
      if FillsOrder(w, a, id) then Volume(w.clients[a.client].row, w.clients[a.client].ord) as real else 0.0
  }

  /** The units that cancellations remove. */
  ghost function Dropped(id: int): (World, Action) -> real {
    (w: World, a: Action) =>
      if a.Run? && a.client in w.clients && w.clients[a.client].CancelDeleting? && w.clients[a.client].id == id
      then Left(w.t, id) else 0.0
  }

  /** The units a fill reports without taking them: the copy of the match has more than the table. */
  ghost function Overfilled(id: int): (World, Action) -> real {
    (w: World, a: Action) =>
      if !FillsOrder(w, a, id) then 0.0
      else
        var x := w.clients[a.client];
        if id in w.t.orders then (x.row.quantity - w.t.orders[id].quantity) as real
        else Volume(x.row, x.ord) as real
  }

  /** One statement of any client. */
  lemma NextTotals(w: World, a: Action, id: int)
    requires WorldInv(w) && Allowed(w, a)
    ensures Left(Next(w, a).t, id) + Filled(id)(w, a) + Dropped(id)(w, a)
         == Left(w.t, id) + Posted(id)(w, a) + Overfilled(id)(w, a)
  {
    if a.Run? {
      assert Knows(w.t, w.issued, w.clients[a.client]);
    }
    assert w.t.nextOrderId !in w.t.orders;
  }

  /** A fill takes from the book what it reports exactly when the row is there with the quantity it read. */
  lemma FillTakesExactlyWhen(w: World, a: Action, id: int)
    requires WorldInv(w) && Allowed(w, a) && FillsOrder(w, a, id)
    ensures Left(Next(w, a).t, id) == Left(w.t, id) - Filled(id)(w, a)
            <==> id in w.t.orders && w.t.orders[id].quantity == w.clients[a.client].row.quantity
  {
    assert Knows(w.t, w.issued, w.clients[a.client]);
    NextTotals(w, a, id);
  }

  /** Over every schedule: left + filled + cancelled = posted + reported but not taken. */
  lemma {:induction false} ScheduleTotals(w: World, actions: seq<Action>, id: int)
    requires WorldInv(w) && ValidSchedule(w, actions)
    ensures Left(Final(w, actions).t, id) + Total(w, actions, Filled(id)) + Total(w, actions, Dropped(id))
         == Left(w.t, id) + Total(w, actions, Posted(id)) + Total(w, actions, Overfilled(id))
    decreases |actions|
  {
    if actions != [] {
      NextTotals(w, actions[0], id);
      NextKeepsWorld(w, actions[0]);
      ScheduleTotals(Next(w, actions[0]), actions[1..], id);
    }
  }

  /** An ID is posted once, with the quantity it is issued with. */
  lemma {:induction false} PostedOnce(w: World, actions: seq<Action>, id: int)
    requires WorldInv(w) && ValidSchedule(w, actions)
    ensures var issued := Final(w, actions).issued;
            Total(w, actions, Posted(id))
            == if id !in w.issued && id in issued then issued[id].quantity as real else 0.0
    decreases |actions|
  {
    if actions != [] {
      var w' := Next(w, actions[0]);
      NextKeepsWorld(w, actions[0]);
      ScheduleKeepsWorld(w', actions[1..]);
      PostedOnce(w', actions[1..], id);
    }
  }

  /**
   * From the start of the server: of every order ever issued, left + filled + cancelled is what was
   * posted exactly when the stale fills of it add up to nothing.
   */
  lemma TotalsKeptExactlyWhen(actions: seq<Action>, id: int)
    requires ValidSchedule(START, actions) && id in Final(START, actions).issued
    ensures var w := Final(START, actions);
            Left(w.t, id) + Total(START, actions, Filled(id)) + Total(START, actions, Dropped(id))
            == w.issued[id].quantity as real
            <==> Total(START, actions, Overfilled(id)) == 0.0
  {
    ScheduleTotals(START, actions, id);
    PostedOnce(START, actions, id);
  }
}
