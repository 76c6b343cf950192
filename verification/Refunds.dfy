/** What a cancellation gives back, compared with what posting took. */
module Refunds {
  import opened Rounding
  import opened Market
  import opened Runs
  import opened Book

  /**
   * Posting an order and cancelling it puts the users and orders tables back as they were, whatever
   * the fraction: what posting drops from the price, the refund drops from the sum.
   */
  lemma PostThenCancel(t: Tables, ord: Order, posted: int)
    requires Inv(t) && ord.WellFormed() && ord.CanRest() && ord.owner in t.users && t.clock <= posted
    requires Reservable(t.users[ord.owner], ord)
    ensures TableInv(Rest(t, ord, posted))
    ensures var (t', code) := Cancel(Rest(t, ord, posted), t.nextOrderId, ord.owner);
            code == OK && t'.users == t.users && t'.orders == t.orders && t'.archives == t.archives
  {
    RestKeepsInv(t, ord, posted);
    var u := t.users[ord.owner];
    var value := ord.Cost(ord.quantity);
    TimesNonNegative(ord.quantity, ord.price);
    if ord.side == Buy {
      RoundedReceipt(u.omg - Trunc(value), value);
    }
    assert u.Reserve(ord).Refund(ord.(createdAt := posted)) == u;
  }

  /** The refund of a cancelled buy: rounded down, unless the balance is still negative after it. */
  lemma RefundAmount(u: User, row: Order)
    requires row.side == Buy && row.WellFormed()
    ensures var value := row.Cost(row.quantity);
            u.Refund(row).omg - u.omg == if u.omg as real + value >= 0.0 then Trunc(value) else Ceil(value)
  {
    TimesNonNegative(row.quantity, row.price);
    RoundedReceipt(u.omg, row.Cost(row.quantity));
  }

  /**
   * A buy is posted, any run follows, and the owner cancels what is left. The refund stays within what
   * posting took unless the balance is negative even with the refund and the value left, rounded up,
   * is more than was taken.
   */
  lemma RefundWithinReservation(t: Tables, ord: Order, posted: int, es: seq<Event>)
    requires Inv(t) && ord.WellFormed() && ord.side == Buy && ord.owner in t.users && t.clock <= posted
    requires Reservable(t.users[ord.owner], ord)
    requires ValidRun(Rest(t, ord, posted), es)
    requires t.nextOrderId in After(Rest(t, ord, posted), es).orders
    ensures var id, now := t.nextOrderId, After(Rest(t, ord, posted), es);
            && Inv(now) && ord.owner in now.users
            && var taken := t.users[ord.owner].omg - Rest(t, ord, posted).users[ord.owner].omg;
            var (then', code) := Cancel(now, id, ord.owner);
            var refund := then'.users[ord.owner].omg - now.users[ord.owner].omg;
            var value := now.orders[id].Cost(now.orders[id].quantity);
            && code == OK
            && (refund <= taken <==> now.users[ord.owner].omg as real + value >= 0.0 || Ceil(value) <= taken)
  {
    var start := Rest(t, ord, posted);
    var id := t.nextOrderId;
    RestKeepsInv(t, ord, posted);
    RunKeepsInv(start, es);
    OrderLifetime(start, es, id);
    var now := After(start, es);
    assert RowOk(now, id);
    var row := now.orders[id];
    RefundAmount(now.users[ord.owner], row);
    TimesNonNegative(row.quantity, row.price);
    TimesSplit(ord.quantity, ord.quantity - row.quantity, ord.price);
    TimesNonNegative(ord.quantity - row.quantity, ord.price);
    TruncMonotone(row.Cost(row.quantity), ord.Cost(ord.quantity));
  }
}
