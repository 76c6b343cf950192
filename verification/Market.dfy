/**
 * The exchange as values: users, resting orders, the archive, and what one command does to the three
 * tables when it runs alone. A taker meets at most one resting order; what is left over rests.
 */
module Market {
  import opened Rounding

  datatype Coin = OMG | DOGE | BTC | ETH

  datatype Side = Buy | Sell

  // Return codes of the commands and of the table operations below them.
  const OK := 0
  const FAILED := -1
  const SQLITE_ERROR := 1
  const SQLITE_NOTFOUND := 12

  // What the two matchers return when nothing matches.
  const NO_MATCH := -1

  datatype User = User(omg: int, doge: int, btc: int, eth: int) {

    function Balance(c: Coin): int {
      match c
      case OMG => omg
      case DOGE => doge
      case BTC => btc
      case ETH => eth
    }

    /** Adds whole coins. */
    function Credit(c: Coin, n: int): (u: User)
      ensures u.Balance(c) == Balance(c) + n
      ensures forall d: Coin | d != c :: u.Balance(d) == Balance(d)
    {
      match c
      case OMG => this.(omg := omg + n)
      case DOGE => this.(doge := doge + n)
      case BTC => this.(btc := btc + n)
      case ETH => this.(eth := eth + n)
    }

    /** Adds an amount that may have a fraction to the OMG balance, which stays an integer. */
    function Earn(amount: real): User {
      this.(omg := Trunc(omg as real + amount))
    }

    /** The buyer's leg of a trade. */
    function Bought(c: Coin, n: int, cost: real): User {
      Earn(-cost).Credit(c, n)
    }

    /** The seller's leg when the seller's order was the one resting. */
    function SoldResting(c: Coin, n: int, cost: real): User {
      Earn(cost).Credit(c, -n)
    }

    /** The seller's leg when the seller is the taker: the coins leave before the money arrives. */
    function SoldTaking(c: Coin, n: int, cost: real): User {
      Credit(c, -n).Earn(cost)
    }

    /** What posting an order takes from its owner. */
    function Reserve(ord: Order): User {
      if ord.side == Buy then Credit(OMG, -Trunc(ord.Cost(ord.quantity))) else Credit(ord.item, -ord.quantity)
    }

    /** What cancelling an order gives back. */
    function Refund(ord: Order): User {
      if ord.side == Buy then Earn(ord.Cost(ord.quantity)) else Credit(ord.item, ord.quantity)
    }
  }

  /** A row of the orders or the archives table. The order ID is the key of the orders table. */
  datatype Order = Order(item: Coin, side: Side, quantity: int, price: real, owner: int, createdAt: int) {

    function Cost(n: int): real {
      Times(n, price)
    }

    predicate WellFormed() {
      quantity > 0 && price >= 0.0
    }

    /** The orders table has no place for an offer of OMG. */
    predicate CanRest() {
      side == Buy || item != OMG
    }
  }

  datatype Tables = Tables(users: map<int, User>, orders: map<int, Order>, archives: seq<Order>,
                           nextUserId: int, nextOrderId: int, clock: int)

  const EMPTY := Tables(map[], map[], [], 1, 1, 0)

  /** What a trade of the two orders settles. */
  function Volume(resting: Order, taker: Order): (n: int)
    ensures n <= resting.quantity && n <= taker.quantity
    ensures n == resting.quantity || n == taker.quantity
  {
    if taker.quantity > resting.quantity then resting.quantity else taker.quantity
  }

  // ---------- Matching ----------

  /** `taker` may trade with `resting`: the other side of the same item, at a price within the limit. */
  predicate Crosses(resting: Order, taker: Order) {
    && resting.item == taker.item
    && resting.side != taker.side
    && resting.owner != taker.owner
    && (if taker.side == Buy then resting.price <= taker.price else resting.price >= taker.price)
  }

  predicate Eligible(orders: map<int, Order>, taker: Order, id: int) {
    id in orders && Crosses(orders[id], taker)
  }

  /** `id` is the eligible order with the earliest timestamp, or one of them. */
  predicate Oldest(orders: map<int, Order>, taker: Order, id: int) {
    && Eligible(orders, taker, id)
    && forall j | j in orders && Eligible(orders, taker, j) :: orders[id].createdAt <= orders[j].createdAt
  }

  /** What a matcher may answer. Equal timestamps leave the choice open. */
  predicate ValidPick(orders: map<int, Order>, taker: Order, pick: int) {
    if pick == NO_MATCH then forall j | j in orders :: !Eligible(orders, taker, j)
    else Oldest(orders, taker, pick)
  }

  /** Among the rows in `ids` there is one with the earliest timestamp. */
  lemma {:induction false} EarliestExists(orders: map<int, Order>, ids: set<int>, first: int) returns (id: int)
    requires first in ids && ids <= orders.Keys
    ensures id in ids && forall j | j in ids :: orders[id].createdAt <= orders[j].createdAt
    decreases ids
  {
    var earlier := set j | j in ids && orders[j].createdAt < orders[first].createdAt;
    if j :| j in earlier {
      assert first !in earlier;
      id := EarliestExists(orders, earlier, j);
    } else {
      id := first;
      assert forall j | j in ids :: j !in earlier;
    }
  }

  /** The matcher always has an answer. */
  lemma PickExists(orders: map<int, Order>, taker: Order) returns (pick: int)
    requires NO_MATCH !in orders
    ensures ValidPick(orders, taker, pick)
  {
    var ids := set j | j in orders && Eligible(orders, taker, j);
    if first :| first in orders && Eligible(orders, taker, first) {
      pick := EarliestExists(orders, ids, first);
      assert forall j | j in orders && Eligible(orders, taker, j) :: j in ids;
    } else {
      pick := NO_MATCH;
    }
  }

  // ---------- Commands ----------

  /** The check made before looking for a match. */
  predicate Funded(u: User, ord: Order) {
    if ord.side == Buy then u.omg as real >= ord.Cost(ord.quantity) else u.Balance(ord.item) >= ord.quantity
  }

  function TakerLeg(u: User, taker: Order, resting: Order, n: int): User {
    if taker.side == Buy then u.Bought(taker.item, n, resting.Cost(n))
    else u.SoldTaking(taker.item, n, resting.Cost(n))
  }

  function MakerLeg(u: User, taker: Order, resting: Order, n: int): User {
    if taker.side == Buy then u.SoldResting(resting.item, n, resting.Cost(n))
    else u.Bought(resting.item, n, resting.Cost(n))
  }

  /** How a trade moves every coin but OMG. */
  lemma LegsMoveCoins(u: User, taker: Order, resting: Order, n: int, c: Coin)
    requires c != OMG && taker.item == resting.item
    ensures var k := if c != taker.item then 0 else if taker.side == Buy then n else -n;
            && TakerLeg(u, taker, resting, n).Balance(c) == u.Balance(c) + k
            && MakerLeg(u, taker, resting, n).Balance(c) == u.Balance(c) - k
  {
  }

  /** The order book after `n` units of order `id` were filled. */
  function Fill(orders: map<int, Order>, id: int, n: int): map<int, Order>
    requires id in orders
  {
    var row := orders[id];
    if n == row.quantity then orders - {id} else orders[id := row.(quantity := row.quantity - n)]
  }

  /** One trade of `taker` with resting order `id`, at the resting price. */
  function Settle(t: Tables, taker: Order, id: int, stamp: int): Tables
    requires taker.owner in t.users && Eligible(t.orders, taker, id) && t.orders[id].owner in t.users
  {
    var row := t.orders[id];
    var n := Volume(row, taker);
    t.(users := t.users[taker.owner := TakerLeg(t.users[taker.owner], taker, row, n)]
                       [row.owner := MakerLeg(t.users[row.owner], taker, row, n)],
       orders := Fill(t.orders, id, n),
       archives := t.archives + [row, taker.(createdAt := stamp)],
       clock := stamp)
  }

  /** Puts `ord` in the book and reserves what it offers. */
  function Rest(t: Tables, ord: Order, posted: int): Tables
    requires ord.owner in t.users
  {
    t.(users := t.users[ord.owner := t.users[ord.owner].Reserve(ord)],
       orders := t.orders[t.nextOrderId := ord.(createdAt := posted)],
       nextOrderId := t.nextOrderId + 1,
       clock := posted)
  }

  /** What is left of `ord` after it met resting order `id`. */
  function Leftover(orders: map<int, Order>, ord: Order, id: int): Order
    requires id in orders
  {
    ord.(quantity := ord.quantity - Volume(orders[id], ord))
  }

  /** One trade, after which the rest of the order goes into the book if it may. */
  function Traded(t: Tables, ord: Order, id: int, stamp: int, posted: int): Tables
    requires ord.owner in t.users && Eligible(t.orders, ord, id) && t.orders[id].owner in t.users
  {
    var left := Leftover(t.orders, ord, id);
    var t' := Settle(t, ord, id, stamp);
    if left.quantity == 0 || !left.CanRest() then t' else Rest(t', left, posted)
  }

  /**
   * A whole `buy` or `sell`, as one step. `pick` is the matcher's answer, `stamp` the time read for
   * the archive and `posted` the time given to an order that comes to rest.
   */
  function Place(t: Tables, ord: Order, pick: int, stamp: int, posted: int): (Tables, int)
    requires TableInv(t) && ValidPick(t.orders, ord, pick)
  {
    if ord.owner !in t.users || !Funded(t.users[ord.owner], ord) then
      (t, FAILED)
    else if pick == NO_MATCH then
      if ord.CanRest() then (Rest(t, ord, posted), OK) else (t, SQLITE_ERROR)
    else
      (Traded(t, ord, pick, stamp, posted),
       if Leftover(t.orders, ord, pick).quantity == 0 || ord.CanRest() then OK else FAILED)
  }

  /** Takes an order off the book for its owner and returns what it reserves. */
  function Cancel(t: Tables, id: int, userId: int): (Tables, int)
    requires TableInv(t)
  {
    if id !in t.orders || t.orders[id].owner != userId then (t, FAILED)
    else
      (t.(users := t.users[userId := t.users[userId].Refund(t.orders[id])], orders := t.orders - {id}), OK)
  }

  function Register(t: Tables, balances: User): Tables {
    t.(users := t.users[t.nextUserId := balances], nextUserId := t.nextUserId + 1)
  }

  /** The check `insert_order` makes again before it posts an order. */
  predicate Reservable(u: User, ord: Order) {
    if ord.side == Buy then Trunc(ord.Cost(ord.quantity)) <= u.omg else ord.quantity <= u.Balance(ord.item)
  }

  /** An order that was funded can be posted whole. */
  lemma FundedIsReservable(u: User, ord: Order)
    requires ord.WellFormed() && Funded(u, ord)
    ensures Reservable(u, ord)
  {
    TimesNonNegative(ord.quantity, ord.price);
  }

  /** Buying `n` of `q` units leaves enough for the rest at the limit. */
  lemma BuyerKeepsEnough(u: User, item: Coin, q: int, n: int, limit: real, price: real)
    requires 0 <= n <= q && 0.0 <= price <= limit && u.omg as real >= Times(q, limit)
    ensures Trunc(Times(q - n, limit)) <= u.Bought(item, n, Times(n, price)).omg
  {
    RemainderAffordable(u.omg, q, n, limit, price);
    var cost := Times(n, price);
    assert u.Earn(-cost).omg == Trunc(u.omg as real - cost);
  }

  lemma TakerKeepsEnough(u: User, ord: Order, resting: Order, n: int)
    requires ord.WellFormed() && ord.CanRest() && Funded(u, ord)
    requires Crosses(resting, ord) && resting.price >= 0.0 && 0 <= n <= ord.quantity
    ensures Reservable(TakerLeg(u, ord, resting, n), ord.(quantity := ord.quantity - n))
  {
    if ord.side == Buy {
      BuyerKeepsEnough(u, ord.item, ord.quantity, n, ord.price, resting.price);
      var left := ord.(quantity := ord.quantity - n);
      assert left.Cost(left.quantity) == Times(ord.quantity - n, ord.price);
      assert TakerLeg(u, ord, resting, n) == u.Bought(ord.item, n, Times(n, resting.price));
    } else {
      assert TakerLeg(u, ord, resting, n).Balance(ord.item) == u.Balance(ord.item) - n;
    }
  }

  /** After a trade the owner can still reserve what is left of the order, if any may rest. */
  lemma LeftoverIsReservable(t: Tables, ord: Order, id: int, stamp: int)
    requires ord.WellFormed() && ord.CanRest() && ord.owner in t.users && Funded(t.users[ord.owner], ord)
    requires Eligible(t.orders, ord, id) && t.orders[id].WellFormed() && t.orders[id].owner in t.users
    ensures Reservable(Settle(t, ord, id, stamp).users[ord.owner], Leftover(t.orders, ord, id))
  {
    var n := Volume(t.orders[id], ord);
    var u := t.users[ord.owner];
    TakerKeepsEnough(u, ord, t.orders[id], n);
    assert Settle(t, ord, id, stamp).users[ord.owner] == TakerLeg(u, ord, t.orders[id], n);
  }

  // ---------- What always holds of the tables ----------

  ghost predicate RowOk(t: Tables, id: int)
    requires id in t.orders
  {
    var row := t.orders[id];
    && 1 <= id < t.nextOrderId
    && row.WellFormed() && row.CanRest()
    && row.owner in t.users
    && row.createdAt <= t.clock
  }

  ghost predicate TableInv(t: Tables) {
    && 1 <= t.nextUserId && 1 <= t.nextOrderId
    && (forall u | u in t.users :: 1 <= u < t.nextUserId)
    && (forall id | id in t.orders :: RowOk(t, id))
    && (forall i, j | i in t.orders && j in t.orders && i < j :: t.orders[i].createdAt <= t.orders[j].createdAt)
  }

  /** A trade: the resting row as it was before the fill, then the taker's row. */
  predicate TradeOk(resting: Order, taker: Order) {
    Crosses(resting, taker) && resting.WellFormed() && taker.WellFormed() && resting.createdAt <= taker.createdAt
  }

  /** The archive is a sequence of trades between registered users. */
  ghost predicate ArchiveInv(archives: seq<Order>, users: set<int>)
    decreases |archives|
  {
    var k := |archives| - 2;
    archives == [] ||
    (&& 2 <= |archives|
     && TradeOk(archives[k], archives[k + 1])
     && archives[k].owner in users && archives[k + 1].owner in users
     && ArchiveInv(archives[..k], users))
  }

  ghost predicate Inv(t: Tables) {
    TableInv(t) && ArchiveInv(t.archives, t.users.Keys)
  }

  lemma {:induction false} ArchiveInvMoreUsers(archives: seq<Order>, users: set<int>, users': set<int>)
    requires ArchiveInv(archives, users) && users <= users'
    ensures ArchiveInv(archives, users')
    decreases |archives|
  {
    if archives != [] {
      ArchiveInvMoreUsers(archives[..|archives| - 2], users, users');
    }
  }

  lemma SettleKeepsInv(t: Tables, taker: Order, id: int, stamp: int)
    requires Inv(t) && taker.WellFormed() && taker.owner in t.users
    requires Eligible(t.orders, taker, id) && t.clock <= stamp
    ensures Inv(Settle(t, taker, id, stamp))
  {
    var t' := Settle(t, taker, id, stamp);
    assert RowOk(t, id);
    assert t'.users.Keys == t.users.Keys;
    forall j | j in t'.orders ensures RowOk(t', j) && t'.orders[j].createdAt == t.orders[j].createdAt {
      assert RowOk(t, j);
    }
    assert t'.archives[..|t'.archives| - 2] == t.archives;
  }

  lemma RestKeepsInv(t: Tables, ord: Order, posted: int)
    requires Inv(t) && ord.WellFormed() && ord.CanRest() && ord.owner in t.users && t.clock <= posted
    ensures Inv(Rest(t, ord, posted))
  {
    var t' := Rest(t, ord, posted);
    assert t'.users.Keys == t.users.Keys;
    forall j | j in t.orders ensures RowOk(t, j) && RowOk(t', j) {
      assert RowOk(t, j);
    }
  }

  /** Both commands that place an order keep the tables in order. */
  lemma PlaceKeepsInv(t: Tables, ord: Order, pick: int, stamp: int, posted: int)
    requires Inv(t) && ord.WellFormed() && ValidPick(t.orders, ord, pick) && t.clock <= stamp <= posted
    ensures Inv(Place(t, ord, pick, stamp, posted).0)
  {
    if ord.owner in t.users && Funded(t.users[ord.owner], ord) {
      if pick == NO_MATCH {
        if ord.CanRest() {
          RestKeepsInv(t, ord, posted);
        }
      } else {
        SettleKeepsInv(t, ord, pick, stamp);
        var left := Leftover(t.orders, ord, pick);
        if left.quantity != 0 && left.CanRest() {
          assert RowOk(t, pick);
          RestKeepsInv(Settle(t, ord, pick, stamp), left, posted);
        }
      }
    }
  }

  lemma CancelKeepsInv(t: Tables, id: int, userId: int)
    requires Inv(t)
    ensures Inv(Cancel(t, id, userId).0)
  {
    var t' := Cancel(t, id, userId).0;
    if t' != t {
      assert RowOk(t, id);
      assert t'.users.Keys == t.users.Keys;
      forall j | j in t'.orders ensures RowOk(t', j) {
        assert RowOk(t, j);
      }
    }
  }

  lemma RegisterKeepsInv(t: Tables, balances: User)
    requires Inv(t)
    ensures Inv(Register(t, balances))
  {
    var t' := Register(t, balances);
    ArchiveInvMoreUsers(t.archives, t.users.Keys, t'.users.Keys);
    forall j | j in t'.orders ensures RowOk(t', j) {
      assert RowOk(t, j);
    }
  }
}
