/** Serial runs: commands one after the other, each alone on the tables. */
module Runs {
  import opened Market

  datatype Event =
    | Registration(balances: User)
    | Submission(ord: Order, pick: int, stamp: int, posted: int)
    | Cancellation(orderId: int, userId: int)

  /** What a command may be and what the matcher and a clock that never goes back may answer. */
  ghost predicate Enabled(t: Tables, e: Event) {
    e.Submission? ==>
      && e.ord.WellFormed()
      && ValidPick(t.orders, e.ord, e.pick)
      && t.clock <= e.stamp <= e.posted
  }

  ghost function Step(t: Tables, e: Event): Tables
    requires Inv(t) && Enabled(t, e)
  {
    match e
    case Registration(balances) => Register(t, balances)
    case Submission(ord, pick, stamp, posted) => Place(t, ord, pick, stamp, posted).0
    case Cancellation(orderId, userId) => Cancel(t, orderId, userId).0
  }

  /** At every point of a run any order of a positive quantity at a price from zero up can be sent, and is answered. */
  lemma AnyOrderIsEnabled(t: Tables, ord: Order, stamp: int, posted: int) returns (pick: int)
    requires Inv(t) && ord.quantity > 0 && ord.price >= 0.0 && t.clock <= stamp <= posted
    ensures Enabled(t, Submission(ord, pick, stamp, posted))
  {
    assert NO_MATCH !in t.orders by {
      assert forall id | id in t.orders :: RowOk(t, id);
    }
    pick := PickExists(t.orders, ord);
  }

  /** So can any registration and any cancellation, by anyone. */
  lemma OthersAreEnabled(t: Tables, balances: User, orderId: int, userId: int)
    ensures Enabled(t, Registration(balances)) && Enabled(t, Cancellation(orderId, userId))
  {
  }

  /** Every step of the machine keeps the table and archive invariants. */
  lemma StepKeepsInv(t: Tables, e: Event)
    requires Inv(t) && Enabled(t, e)
    ensures Inv(Step(t, e))
  {
    match e
    case Registration(balances) => RegisterKeepsInv(t, balances);
    case Submission(ord, pick, stamp, posted) => PlaceKeepsInv(t, ord, pick, stamp, posted);
    case Cancellation(orderId, userId) => CancelKeepsInv(t, orderId, userId);
  }

  ghost predicate ValidRun(t: Tables, es: seq<Event>)
    decreases |es|
  {
    es == [] || (Inv(t) && Enabled(t, es[0]) && ValidRun(Step(t, es[0]), es[1..]))
  }

  ghost function After(t: Tables, es: seq<Event>): Tables
    requires ValidRun(t, es)
    decreases |es|
  {
    if es == [] then t else After(Step(t, es[0]), es[1..])
  }

  /** Every state reached from good tables has good tables. */
  lemma {:induction false} RunKeepsInv(t: Tables, es: seq<Event>)
    requires Inv(t) && ValidRun(t, es)
    ensures Inv(After(t, es))
    decreases |es|
  {
    if es != [] {
      StepKeepsInv(t, es[0]);
      RunKeepsInv(Step(t, es[0]), es[1..]);
    }
  }

  /** A run can be cut anywhere. */
  lemma {:induction false} RunSplit(t: Tables, es: seq<Event>, k: nat)
    requires ValidRun(t, es) && k <= |es|
    ensures ValidRun(t, es[..k]) && ValidRun(After(t, es[..k]), es[k..])
    ensures After(After(t, es[..k]), es[k..]) == After(t, es)
    decreases k
  {
    if k == 0 {
      assert es[0..] == es;
    } else {
      RunSplit(Step(t, es[0]), es[1..], k - 1);
      assert es[..k][1..] == es[1..][..k - 1];
      assert es[1..][k - 1..] == es[k..];
    }
  }

  /** What a state of a run from empty tables is like, in its own columns. */
  lemma StateFromEmpty(es: seq<Event>, i: int, j: int)
    requires ValidRun(EMPTY, es)
    ensures var t := After(EMPTY, es);
            && t.nextUserId >= 1 && t.nextOrderId >= 1
            && (i in t.users ==> 1 <= i < t.nextUserId)
            && (i in t.orders ==>
                  && 1 <= i < t.nextOrderId && t.orders[i].quantity > 0 && t.orders[i].price >= 0.0
                  && t.orders[i].owner in t.users && (t.orders[i].side == Sell ==> t.orders[i].item != OMG))
            && (i in t.orders && j in t.orders && i < j ==> t.orders[i].createdAt <= t.orders[j].createdAt)
  {
    RunKeepsInv(EMPTY, es);
    var t := After(EMPTY, es);
    if i in t.orders {
      assert RowOk(t, i);
    }
  }
}
